/** Bloom filters (util/bloom.cc): bits set by double hashing, and no key that went in is
    ever denied. */
module Blooms {
  import opened Keys
  import opened Coding

  /** Any function of the key will do. */
  type Hash = Bytes -> U32

  // ----- bits -----

  /** b & (1 << i) != 0 */
  predicate BitOf(b: nat, i: nat) { if i == 0 then b % 2 == 1 else BitOf(b / 2, i - 1) }

  /** b | (1 << i) */
  function WithBit(b: nat, i: nat): nat { if i == 0 then b / 2 * 2 + 1 else b % 2 + 2 * WithBit(b / 2, i - 1) }

  lemma {:induction false} WithBitIs(b: nat, i: nat, j: nat)
    ensures BitOf(WithBit(b, i), j) <==> j == i || BitOf(b, j)
  {
    if i == 0 {
      assert (b / 2 * 2 + 1) / 2 == b / 2;
    } else {
      var w := WithBit(b / 2, i - 1);
      assert (b % 2 + 2 * w) / 2 == w && (b % 2 + 2 * w) % 2 == b % 2;
      if j > 0 { WithBitIs(b / 2, i - 1, j - 1); }
    }
  }

  function Pow2(i: nat): (p: nat)
    ensures p >= 1
  {
    if i == 0 then 1 else 2 * Pow2(i - 1)
  }

  lemma {:induction false} WithBitFits(b: nat, i: nat, n: nat)
    requires b < Pow2(n) && i < n
    ensures WithBit(b, i) < Pow2(n)
  {
    var p := Pow2(n - 1);
    assert Pow2(n) == 2 * p;
    if i > 0 {
      WithBitFits(b / 2, i - 1, n - 1);
      assert WithBit(b, i) == b % 2 + 2 * WithBit(b / 2, i - 1);
    } else {
      assert b / 2 < p;
    }
  }

  lemma {:induction false} EightBits()
    ensures Pow2(8) == 256
  {
    assert Pow2(3) == 2 * Pow2(2) && Pow2(5) == 2 * Pow2(4) && Pow2(7) == 2 * Pow2(6);
  }

  function SetBit(b: Byte, i: nat): (r: Byte)
    requires i < 8
  {
    EightBits();
    WithBitFits(b, i, 8);
    WithBit(b, i)
  }

  predicate Bit(a: Bytes, n: nat)
    requires n < 8 * |a|
  {
    BitOf(a[n / 8], n % 8)
  }

  /** array[n / 8] |= 1 << (n % 8) */
  function Marked(a: Bytes, n: nat): (r: Bytes)
    requires n < 8 * |a|
    ensures |r| == |a|
  {
    a[n / 8 := SetBit(a[n / 8], n % 8)]
  }

  lemma {:induction false} MarkedIs(a: Bytes, n: nat, m: nat)
    requires n < 8 * |a| && m < 8 * |a|
    ensures Bit(Marked(a, n), m) <==> m == n || Bit(a, m)
  {
    hide WithBit, BitOf;
    if m / 8 == n / 8 { WithBitIs(a[n / 8], n % 8, m % 8); }
    assert m == 8 * (m / 8) + m % 8 && n == 8 * (n / 8) + n % 8;
  }

  // ----- probes -----

  /** The hash rotated right by 17 bits. */
  function Delta(h: U32): U32 { h / 0x2_0000 + h % 0x2_0000 * 0x8000 }

  /** The hash after `j` additions of `delta`. */
  function Probe(h: U32, delta: U32, j: nat): U32 { if j == 0 then h else (Probe(h, delta, j - 1) + delta) % TWO_32 }

  function Slot(h: U32, bits: nat): (n: nat)
    requires bits > 0
    ensures n < bits
  {
    h % bits
  }

  /** The bit that probe `j` looks at. */
  function Position(h: U32, j: nat, bits: nat): (n: nat)
    requires bits > 0
    ensures n < bits
  {
    Slot(Probe(h, Delta(h), j), bits)
  }

  lemma {:induction false} PositionIs(h: U32, j: nat, bits: nat)
    requires bits > 0
    ensures Position(h, j, bits) == Slot(Probe(h, Delta(h), j), bits)
    ensures Probe(h, Delta(h), 0) == h && Probe(h, Delta(h), j + 1) == (Probe(h, Delta(h), j) + Delta(h)) % TWO_32
  {
    hide Slot, Delta;
  }

  /** The first `k` probes for hash value `h` all hit. */
  predicate Hits(a: Bytes, h: U32, k: nat) {
    |a| > 0 && forall j :: 0 <= j < k ==> Bit(a, Position(h, j, 8 * |a|))
  }

  ghost predicate MoreBits(a: Bytes, b: Bytes) {
    |a| == |b| && forall n :: 0 <= n < 8 * |a| && Bit(a, n) ==> Bit(b, n)
  }

  lemma {:induction false} HitsKept(a: Bytes, b: Bytes, h: U32, k: nat)
    requires MoreBits(a, b) && Hits(a, h, k)
    ensures Hits(b, h, k)
  {
    hide Bit;
  }

  lemma {:induction false} MoreMarked(a: Bytes, b: Bytes, n: nat)
    requires MoreBits(a, b) && n < 8 * |b|
    ensures MoreBits(a, Marked(b, n)) && Bit(Marked(b, n), n)
  {
    hide Bit, Marked;
    MarkedIs(b, n, n);
    forall m | 0 <= m < 8 * |a| && Bit(a, m) ensures Bit(Marked(b, n), m) { MarkedIs(b, n, m); }
  }

  /** The inner loop of CreateFilter: marks the probes of one key. */
  method AddKey(a: Bytes, h0: U32, k: nat) returns (b: Bytes)
    requires |a| > 0
    ensures MoreBits(a, b) && Hits(b, h0, k)
  {
    hide Bit, Marked, Position, Probe, Delta, Slot;
    var bits := 8 * |a|;
    var h, delta := h0, Delta(h0);
    b := a;
    PositionIs(h0, 0, bits);
    for j := 0 to k
      invariant MoreBits(a, b) && h == Probe(h0, Delta(h0), j)
      invariant forall i :: 0 <= i < j ==> Bit(b, Position(h0, i, bits))
    {
      PositionIs(h0, j, bits);
      var bitpos := Slot(h, bits);
      MoreMarked(a, b, bitpos);
      MoreMarked(b, b, bitpos);
      b := Marked(b, bitpos);
      h := (h + delta) % TWO_32;
    }
  }

  // ----- the policy -----

  function FilterBytes(n: nat, bitsPerKey: nat): (bytes: nat)
    ensures bytes >= 8
  {
    var bits := n * bitsPerKey;
    ((if bits < 64 then 64 else bits) + 7) / 8
  }

  /** CreateFilter: every key hits, with the number of probes kept at the end. */
  method CreateFilter(hash: Hash, keys: seq<Bytes>, bitsPerKey: nat, k: nat) returns (filter: Bytes)
    requires 1 <= k <= 30
    ensures |filter| == FilterBytes(|keys|, bitsPerKey) + 1 && filter[|filter| - 1] == k
    ensures forall i :: 0 <= i < |keys| ==> Matches(hash, keys[i], filter)
  {
    var a: Bytes := seq(FilterBytes(|keys|, bitsPerKey), i => 0);
    for i := 0 to |keys|
      invariant |a| == FilterBytes(|keys|, bitsPerKey)
      invariant forall j :: 0 <= j < i ==> Hits(a, hash(keys[j]), k)
    {
      var b := AddKey(a, hash(keys[i]), k);
      forall j | 0 <= j < i ensures Hits(b, hash(keys[j]), k) { HitsKept(a, b, hash(keys[j]), k); }
      a := b;
    }
    filter := a + [k];
    assert filter[..|filter| - 1] == a;
  }

  /** What KeyMayMatch answers. */
  predicate Matches(hash: Hash, key: Bytes, filter: Bytes) {
    |filter| >= 2 && var k := filter[|filter| - 1]; k > 30 || Hits(filter[..|filter| - 1], hash(key), k)
  }

  method KeyMayMatch(hash: Hash, key: Bytes, filter: Bytes) returns (may: bool)
    ensures may == Matches(hash, key, filter)
  {
    if |filter| < 2 {
      return false;
    }
    var a, k := filter[..|filter| - 1], filter[|filter| - 1];
    if k > 30 {
      return true;
    }
    hide Bit, Position, Probe, Delta, Slot;
    var bits := 8 * |a|;
    var h := hash(key);
    var delta := Delta(h);
    PositionIs(h, 0, bits);
    for j := 0 to k
      invariant h == Probe(hash(key), delta, j)
      invariant forall i :: 0 <= i < j ==> Bit(a, Position(hash(key), i, bits))
    {
      PositionIs(hash(key), j, bits);
      if !Bit(a, Slot(h, bits)) {
        return false;
      }
      h := (h + delta) % TWO_32;
    }
    may := true;
  }
}

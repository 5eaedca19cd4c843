/** Fixed-width and variable-length integers (util/coding.cc) and length-prefixed
    strings, with the checksum framing of util/crc32c.h. */
module Coding {
  import opened Keys

  const TWO_32: int := 0x1_0000_0000
  const TWO_64: int := 0x1_0000_0000_0000_0000

  type U32 = v: int | 0 <= v < TWO_32
  type U64 = v: int | 0 <= v < TWO_64

  /** A parse either fails or yields a value and the unread input. */
  datatype Parsed<+T> = Bad | Good(value: T, rest: Bytes)

  // ----- fixed width -----

  function EncodeFixed32(v: U32): (b: Bytes)
    ensures |b| == 4
  {
    [v % 256, v / 0x100 % 256, v / 0x1_0000 % 256, v / 0x100_0000]
  }

  function DecodeFixed32(b: Bytes): (v: U32)
    requires |b| >= 4
  {
    b[0] as int + b[1] as int * 0x100 + b[2] as int * 0x1_0000 + b[3] as int * 0x100_0000
  }

  lemma {:induction false} Fixed32RoundTrip(v: U32, rest: Bytes)
    ensures DecodeFixed32(EncodeFixed32(v) + rest) == v
  {
    var b := EncodeFixed32(v) + rest;
    assert b[0] == v % 256 && b[1] == v / 0x100 % 256 && b[2] == v / 0x1_0000 % 256 && b[3] == v / 0x100_0000;
    assert v / 0x100 == v / 0x100 % 256 + 256 * (v / 0x1_0000);
    assert v / 0x1_0000 == v / 0x1_0000 % 256 + 256 * (v / 0x100_0000);
  }

  function EncodeFixed64(v: U64): (b: Bytes)
    ensures |b| == 8
  {
    EncodeFixed32(v % TWO_32) + EncodeFixed32(v / TWO_32)
  }

  function DecodeFixed64(b: Bytes): (v: U64)
    requires |b| >= 8
  {
    DecodeFixed32(b) + DecodeFixed32(b[4..]) * TWO_32
  }

  lemma {:induction false} Fixed64RoundTrip(v: U64, rest: Bytes)
    ensures DecodeFixed64(EncodeFixed64(v) + rest) == v
  {
    var lo, hi := EncodeFixed32(v % TWO_32), EncodeFixed32(v / TWO_32);
    var b := EncodeFixed64(v) + rest;
    assert b == lo + (hi + rest) && b[4..] == hi + rest;
    Fixed32RoundTrip(v % TWO_32, hi + rest);
    Fixed32RoundTrip(v / TWO_32, rest);
  }

  /** Numbers one after the other. */
  function FixedAll(v: seq<nat>): Bytes
    requires forall k :: 0 <= k < |v| ==> v[k] < TWO_32
  {
    if v == [] then [] else FixedAll(v[..|v| - 1]) + EncodeFixed32(v[|v| - 1])
  }

  lemma {:induction false} FixedAllSize(v: seq<nat>)
    requires forall k :: 0 <= k < |v| ==> v[k] < TWO_32
    ensures |FixedAll(v)| == 4 * |v|
  {
    if v != [] { FixedAllSize(v[..|v| - 1]); }
  }

  lemma {:induction false} FixedAllAt(v: seq<nat>, k: nat, rest: Bytes)
    requires k < |v| && forall k :: 0 <= k < |v| ==> v[k] < TWO_32
    ensures |FixedAll(v) + rest| >= 4 * k + 4 && DecodeFixed32((FixedAll(v) + rest)[4 * k..]) == v[k]
  {
    var m := |v| - 1;
    FixedAllSize(v);
    FixedAllSize(v[..m]);
    var a, e := FixedAll(v[..m]), EncodeFixed32(v[m]);
    assert FixedAll(v) + rest == a + (e + rest);
    if k == m {
      assert (a + (e + rest))[4 * k..] == e + rest;
      Fixed32RoundTrip(v[m], rest);
    } else {
      FixedAllAt(v[..m], k, e + rest);
    }
  }

  // ----- varints -----

  /** Seven bits a byte, low bits first, the high bit set on all but the last. */
  function Varint(v: nat): (b: Bytes)
    ensures |b| >= 1
  {
    if v < 128 then [v] else [v % 128 + 128] + Varint(v / 128)
  }

  /** EncodeVarint64. */
  method EncodeVarint64(v: U64) returns (b: Bytes)
    ensures b == Varint(v)
  {
    b := [];
    var left: nat := v;
    while left >= 128
      invariant b + Varint(left) == Varint(v)
    {
      assert Varint(left) == [left % 128 + 128] + Varint(left / 128);
      b := b + [left % 128 + 128];
      left := left / 128;
    }
    b := b + [left];
  }

  /** EncodeVarint32, unrolled by size, writes the same bytes. */
  method EncodeVarint32(v: U32) returns (b: Bytes)
    ensures b == Varint(v)
  {
    var v1, v2, v3, v4 := v / 0x80, v / 0x4000, v / 0x20_0000, v / 0x1000_0000;
    VarintSteps(v, v1, v2, v3, v4);
    if v < 0x80 {
      b := [v];
    } else if v < 0x4000 {
      b := [v % 128 + 128, v1];
    } else if v < 0x20_0000 {
      b := [v % 128 + 128, v1 % 128 + 128, v2];
    } else if v < 0x1000_0000 {
      b := [v % 128 + 128, v1 % 128 + 128, v2 % 128 + 128, v3];
    } else {
      b := [v % 128 + 128, v1 % 128 + 128, v2 % 128 + 128, v3 % 128 + 128, v4];
    }
  }

  lemma {:induction false} VarintSteps(v: U32, v1: nat, v2: nat, v3: nat, v4: nat)
    requires v1 == v / 0x80 && v2 == v / 0x4000 && v3 == v / 0x20_0000 && v4 == v / 0x1000_0000
    ensures v >= 0x80 ==> Varint(v) == [v % 128 + 128] + Varint(v1)
    ensures Varint(v1) == if v < 0x4000 then [v1] else [v1 % 128 + 128] + Varint(v2)
    ensures Varint(v2) == if v < 0x20_0000 then [v2] else [v2 % 128 + 128] + Varint(v3)
    ensures Varint(v3) == if v < 0x1000_0000 then [v3] else [v3 % 128 + 128] + Varint(v4)
    ensures Varint(v4) == [v4]
    ensures v < 0x4000 ==> v1 < 128
  {
    assert v1 / 128 == v2 && v2 / 128 == v3 && v3 / 128 == v4 && v4 < 128;
  }

  /** The value of at most `n` varint bytes at the front of `s`, before it is cut to
      the width of the result. */
  function RawVarint(s: Bytes, n: nat): (r: Parsed<nat>)
    ensures r.Good? ==> |r.rest| < |s| && r.rest == s[|s| - |r.rest|..]
    decreases |s|
  {
    if n == 0 || s == [] then Bad
    else if s[0] < 128 then Good(s[0], s[1..])
    else
      var r := RawVarint(s[1..], n - 1);
      if r.Bad? then Bad else Good(s[0] - 128 + 128 * r.value, r.rest)
  }

  const KVarint32Bytes: nat := 5
  const KVarint64Bytes: nat := 10

  /** GetVarint32 and GetVarint64. */
  function GetVarint32(s: Bytes): (r: Parsed<U32>)
    ensures r.Good? ==> |r.rest| < |s| && r.rest == s[|s| - |r.rest|..]
  {
    var r := RawVarint(s, KVarint32Bytes);
    if r.Bad? then Bad else Good(r.value % TWO_32, r.rest)
  }

  function GetVarint64(s: Bytes): (r: Parsed<U64>)
    ensures r.Good? ==> |r.rest| < |s| && r.rest == s[|s| - |r.rest|..]
  {
    var r := RawVarint(s, KVarint64Bytes);
    if r.Bad? then Bad else Good(r.value % TWO_64, r.rest)
  }

  function Pow128(n: nat): nat { if n == 0 then 1 else 128 * Pow128(n - 1) }

  lemma {:induction false} RawVarintRoundTrip(v: nat, n: nat, rest: Bytes)
    requires n > 0 && v < Pow128(n)
    ensures RawVarint(Varint(v) + rest, n) == Good(v, rest)
  {
    var s := Varint(v) + rest;
    if v < 128 {
      assert s[0] == v && s[1..] == rest;
    } else {
      var q, m := v / 128, v % 128;
      assert v == 128 * q + m;
      assert Pow128(n) == 128 * Pow128(n - 1);
      assert n > 1;
      RawVarintRoundTrip(q, n - 1, rest);
      RawVarintStep(v, q, m, n, rest);
    }
  }

  lemma {:induction false} RawVarintStep(v: nat, q: nat, m: nat, n: nat, rest: Bytes)
    requires v >= 128 && q == v / 128 && m == v % 128 && n > 0
    requires RawVarint(Varint(q) + rest, n - 1) == Good(q, rest)
    ensures RawVarint(Varint(v) + rest, n) == Good(v, rest)
  {
    assert Varint(v) == [m + 128] + Varint(q);
    Cons(m + 128, Varint(q), rest);
  }

  lemma {:induction false} Cons(b: Byte, s: Bytes, rest: Bytes)
    ensures var t := [b] + s + rest; t[0] == b && t[1..] == s + rest
  {
  }

  lemma {:induction false} Pow128Five()
    ensures Pow128(5) == 0x8_0000_0000
  {
    assert Pow128(1) == 128;
    assert Pow128(2) == 128 * Pow128(1);
    assert Pow128(3) == 128 * Pow128(2);
    assert Pow128(4) == 128 * Pow128(3);
  }

  lemma {:induction false} Pow128Ten()
    ensures Pow128(10) > TWO_64
  {
    Pow128Five();
    assert Pow128(6) == 128 * Pow128(5);
    assert Pow128(7) == 128 * Pow128(6);
    assert Pow128(8) == 128 * Pow128(7);
    assert Pow128(9) == 128 * Pow128(8);
  }

  lemma {:induction false} VarintSize(v: nat, n: nat)
    requires n >= 1 && v < Pow128(n)
    ensures |Varint(v)| <= n
  {
    if v >= 128 {
      assert Pow128(n) == 128 * Pow128(n - 1);
      VarintSize(v / 128, n - 1);
    }
  }

  lemma {:induction false} Varint32Size(v: nat)
    requires v < TWO_32
    ensures |Varint(v)| <= 5
  {
    Pow128Five();
    VarintSize(v, 5);
  }

  lemma {:induction false} Varint64Size(v: nat)
    requires v < TWO_64
    ensures |Varint(v)| <= 10
  {
    Pow128Ten();
    VarintSize(v, 10);
  }

  lemma {:induction false} RawVarintFits(v: nat, n: nat, rest: Bytes)
    requires (n == KVarint32Bytes && v < TWO_32) || (n == KVarint64Bytes && v < TWO_64)
    ensures RawVarint(Varint(v) + rest, n) == Good(v, rest)
  {
    Pow128Five();
    Pow128Ten();
    RawVarintRoundTrip(v, n, rest);
  }

  lemma {:induction false} CutFits(s: Bytes, v: nat, rest: Bytes)
    ensures v < TWO_32 && RawVarint(s, KVarint32Bytes) == Good(v, rest) ==> GetVarint32(s) == Good(v, rest)
    ensures v < TWO_64 && RawVarint(s, KVarint64Bytes) == Good(v, rest) ==> GetVarint64(s) == Good(v, rest)
  {
  }

  lemma {:induction false} Varint32RoundTrip(v: U32, rest: Bytes)
    ensures GetVarint32(Varint(v) + rest) == Good(v, rest)
  {
    RawVarintFits(v, KVarint32Bytes, rest);
    CutFits(Varint(v) + rest, v, rest);
  }

  lemma {:induction false} Varint64RoundTrip(v: U64, rest: Bytes)
    ensures GetVarint64(Varint(v) + rest) == Good(v, rest)
  {
    RawVarintFits(v, KVarint64Bytes, rest);
    CutFits(Varint(v) + rest, v, rest);
  }

  // ----- length-prefixed strings -----

  function PutLengthPrefixed(s: Bytes): Bytes { Varint(|s|) + s }

  function GetLengthPrefixed(s: Bytes): (r: Parsed<Bytes>)
    ensures r.Good? ==> |r.rest| < |s| && r.rest == s[|s| - |r.rest|..]
  {
    var n := GetVarint32(s);
    if n.Bad? || |n.rest| < n.value then Bad else Good(n.rest[..n.value], n.rest[n.value..])
  }

  lemma {:induction false} LengthPrefixedRoundTrip(s: Bytes, rest: Bytes)
    requires |s| < TWO_32
    ensures GetLengthPrefixed(PutLengthPrefixed(s) + rest) == Good(s, rest)
  {
    assert PutLengthPrefixed(s) + rest == Varint(|s|) + (s + rest);
    Varint32RoundTrip(|s|, s + rest);
  }

  // ----- checksums -----

  /** A checksum is a fold over bytes; crc32c is one. */
  type CrcStep = (U32, Byte) -> U32

  function Extend(step: CrcStep, crc: U32, data: Bytes): U32
    decreases |data|
  {
    if data == [] then crc else Extend(step, step(crc, data[0]), data[1..])
  }

  lemma {:induction false} ExtendConcat(step: CrcStep, crc: U32, a: Bytes, b: Bytes)
    ensures Extend(step, crc, a + b) == Extend(step, Extend(step, crc, a), b)
    decreases |a|
  {
    if a == [] {
      assert a + b == b;
    } else {
      assert (a + b)[1..] == a[1..] + b;
      ExtendConcat(step, step(crc, a[0]), a[1..], b);
    }
  }

  const KMaskDelta: U32 := 0xa282ead8

  /** Rotate right by 15 bits and add a constant, modulo 2^32. */
  function Mask(crc: U32): U32 {
    (crc / 0x8000 + crc % 0x8000 * 0x2_0000 + KMaskDelta) % TWO_32
  }

  function Unmask(masked: U32): U32 {
    var rot := (masked - KMaskDelta) % TWO_32;
    rot / 0x2_0000 + rot % 0x2_0000 * 0x8000
  }

  /** Each undoes the other. */
  lemma {:induction false} MaskRoundTrip(crc: U32)
    ensures Unmask(Mask(crc)) == crc && Mask(Unmask(crc)) == crc
  {
    MaskUndone(crc);
    UnmaskUndone(crc);
  }

  lemma {:induction false} MaskUndone(crc: U32)
    ensures Unmask(Mask(crc)) == crc
  {
    var hi, lo := crc / 0x8000, crc % 0x8000;
    var rot := hi + lo * 0x2_0000;
    assert (Mask(crc) - KMaskDelta) % TWO_32 == rot;
    assert rot / 0x2_0000 == lo && rot % 0x2_0000 == hi;
  }

  lemma {:induction false} UnmaskUndone(crc: U32)
    ensures Mask(Unmask(crc)) == crc
  {
    var r := (crc - KMaskDelta) % TWO_32;
    var un := r / 0x2_0000 + r % 0x2_0000 * 0x8000;
    assert un / 0x8000 == r % 0x2_0000 && un % 0x8000 == r / 0x2_0000;
  }
}

/** The bytewise comparator and the comparator of internal keys on their encoded form
    (util/comparator.cc, db/dbformat.cc), with the functions that shorten index keys. */
module Comparators {
  import opened Keys
  import opened Coding

  // ----- the bytewise order -----

  predicate Lt(a: Bytes, b: Bytes) { Rank(a) < Rank(b) }
  predicate Le(a: Bytes, b: Bytes) { Rank(a) <= Rank(b) }

  lemma {:induction false} CommonHead(c: Bytes, a: Bytes, b: Bytes)
    ensures Lt(c + a, c + b) <==> Lt(a, b)
  {
    if c == [] {
      assert c + a == a && c + b == b;
    } else {
      CommonHead(c[1..], a, b);
      assert (c + a)[1..] == c[1..] + a && (c + b)[1..] == c[1..] + b;
      assert (c + a)[0] == c[0] && (c + b)[0] == c[0];
    }
  }

  lemma {:induction false} FirstByte(a: Bytes, b: Bytes)
    requires a != [] && b != [] && a[0] < b[0]
    ensures Lt(a, b)
  {
    assert a[0] as real + 1.0 <= b[0] as real;
  }

  /** Where two strings first differ decides. */
  lemma {:induction false} FirstDifference(a: Bytes, b: Bytes, i: nat)
    requires i < |a| && i < |b| && a[..i] == b[..i] && a[i] < b[i]
    ensures Lt(a, b)
  {
    assert a == a[..i] + a[i..] && b == a[..i] + b[i..];
    FirstByte(a[i..], b[i..]);
    CommonHead(a[..i], a[i..], b[i..]);
  }

  /** FindShortestSeparator of the bytewise comparator, for any two strings: what comes
      out is no longer, not before `start`, and before `limit` if `start` was. */
  method ShortestSeparator(start: Bytes, limit: Bytes) returns (s: Bytes)
    ensures |s| <= |start| && Le(start, s) && (Lt(start, limit) ==> Lt(s, limit))
    ensures (s == start || Lt(start, s)) && (start == limit ==> s == start)
  {
    var minLength := if |start| < |limit| then |start| else |limit|;
    var diff := 0;
    while diff < minLength && start[diff] == limit[diff]
      invariant diff <= minLength && start[..diff] == limit[..diff]
    {
      diff := diff + 1;
    }
    s := start;
    if diff < minLength {
      var diffByte := start[diff];
      if diffByte < 0xff && diffByte + 1 < limit[diff] {
        s := start[..diff] + [diffByte + 1];
        FirstDifference(start, s, diff);
        FirstDifference(s, limit, diff);
      }
    }
  }

  /** FindShortSuccessor of the bytewise comparator. */
  method ShortSuccessor(key: Bytes) returns (s: Bytes)
    ensures |s| <= |key| && (s == key || Lt(key, s))
  {
    s := key;
    for i := 0 to |key| {
      var byte := key[i];
      if byte != 0xff {
        s := key[..i] + [byte + 1];
        FirstDifference(key, s, i);
        return;
      }
    }
  }

  // ----- internal keys -----

  predicate IsInternal(k: Bytes) { |k| >= 8 }

  /** ExtractUserKey. */
  function UserOf(k: Bytes): Bytes
    requires IsInternal(k)
  {
    k[..|k| - 8]
  }

  function TrailerOf(k: Bytes): U64
    requires IsInternal(k)
  {
    DecodeFixed64(k[|k| - 8..])
  }

  function Encode(user: Bytes, trailer: U64): (k: Bytes)
    ensures IsInternal(k)
  {
    user + EncodeFixed64(trailer)
  }

  lemma {:induction false} EncodeParts(user: Bytes, trailer: U64)
    ensures UserOf(Encode(user, trailer)) == user && TrailerOf(Encode(user, trailer)) == trailer
  {
    var k, t := Encode(user, trailer), EncodeFixed64(trailer);
    hide EncodeFixed64, DecodeFixed64;
    assert k[..|k| - 8] == user && k[|k| - 8..] == t;
    Fixed64RoundTrip(trailer, []);
    assert t + [] == t;
  }

  /** InternalKeyComparator::Compare(a, b) < 0. */
  predicate InternalLt(a: Bytes, b: Bytes)
    requires IsInternal(a) && IsInternal(b)
  {
    Compare(UserOf(a), UserOf(b)) < 0 || (Compare(UserOf(a), UserOf(b)) == 0 && TrailerOf(a) > TrailerOf(b))
  }

  /** A trailer as a fraction: the larger it is, the earlier. */
  function TrailerRank(t: U64): (r: real)
    ensures 0.0 <= r < 1.0
  {
    (TWO_64 - 1 - t) as real / TWO_64 as real
  }

  /** User key and trailer read as one base-257 fraction: the digits of the user key are
      above 0, and a 0 ends it. */
  function InternalRank(user: Bytes, t: U64): (r: real)
    ensures 0.0 <= r < 1.0
    ensures user == [] <==> r < 1.0 / 257.0
  {
    if user == [] then TrailerRank(t) / 257.0 else (user[0] as real + 1.0 + InternalRank(user[1..], t)) / 257.0
  }

  function InternalOrder(k: Bytes): (r: real) {
    if IsInternal(k) then InternalRank(UserOf(k), TrailerOf(k)) else -1.0
  }

  lemma {:induction false} RankLess(u: Bytes, s: U64, w: Bytes, t: U64)
    ensures InternalRank(u, s) < InternalRank(w, t) <==> Compare(u, w) < 0 || (Compare(u, w) == 0 && s > t)
  {
    if u != [] && w != [] {
      RankLess(u[1..], s, w[1..], t);
      hide InternalRank, TrailerRank;
      OneDigit(u, s);
      OneDigit(w, t);
      DigitLess(u[0], w[0], InternalRank(u[1..], s), InternalRank(w[1..], t));
    } else if u == [] && w == [] {
      TrailerLess(s, t);
    }
  }

  lemma {:induction false} OneDigit(u: Bytes, s: U64)
    requires u != []
    ensures InternalRank(u, s) == (u[0] as real + 1.0 + InternalRank(u[1..], s)) / 257.0
  {
  }

  lemma {:induction false} DigitLess(a: Byte, b: Byte, x: real, y: real)
    requires 0.0 <= x < 1.0 && 0.0 <= y < 1.0
    ensures (a as real + 1.0 + x) / 257.0 < (b as real + 1.0 + y) / 257.0 <==> a < b || (a == b && x < y)
  {
    if a < b { assert a as real + 1.0 <= b as real; }
    if b < a { assert b as real + 1.0 <= a as real; }
  }

  lemma {:induction false} TrailerLess(s: U64, t: U64)
    ensures TrailerRank(s) / 257.0 < TrailerRank(t) / 257.0 <==> s > t
  {
  }

  /** The rank gives the order of the comparator. */
  lemma {:induction false} OrderIsComparator(a: Bytes, b: Bytes)
    requires IsInternal(a) && IsInternal(b)
    ensures InternalOrder(a) < InternalOrder(b) <==> InternalLt(a, b)
  {
    RankLess(UserOf(a), TrailerOf(a), UserOf(b), TrailerOf(b));
  }

  /** A smaller user key comes first whatever the trailers. */
  lemma {:induction false} UserDecides(a: Bytes, b: Bytes)
    requires IsInternal(a) && IsInternal(b)
    ensures Lt(UserOf(a), UserOf(b)) ==> InternalOrder(a) < InternalOrder(b)
    ensures InternalOrder(a) <= InternalOrder(b) ==> Le(UserOf(a), UserOf(b))
  {
    OrderIsComparator(a, b);
    OrderIsComparator(b, a);
    RankOrders(UserOf(a), UserOf(b));
    RankOrders(UserOf(b), UserOf(a));
  }

  /** kMaxSequenceNumber and kValueTypeForSeek, packed. */
  const SeekTrailer: U64 := KMaxSequenceNumber * 256 + 1

  /** What an index key between two blocks must satisfy: it separates them, and nothing
      that is past the first block but not past the index key has the user key of the
      second. */
  ghost predicate Separates(last: Bytes, sep: Bytes, next: Bytes) {
    && IsInternal(last) && IsInternal(sep) && IsInternal(next)
    && InternalOrder(last) <= InternalOrder(sep) && InternalOrder(sep) < InternalOrder(next)
    && (sep == last || Lt(UserOf(sep), UserOf(next)))
  }

  /** FindShortestSeparator of the internal comparator. */
  method InternalSeparator(start: Bytes, limit: Bytes) returns (s: Bytes)
    requires IsInternal(start) && IsInternal(limit) && InternalOrder(start) < InternalOrder(limit)
    ensures Separates(start, s, limit) && |s| <= |start|
  {
    hide InternalOrder;
    var userStart, userLimit := UserOf(start), UserOf(limit);
    var tmp := ShortestSeparator(userStart, userLimit);
    s := start;
    UserDecides(start, limit);
    RankOrders(userStart, tmp);
    RankOrders(userStart, userLimit);
    if |tmp| < |userStart| && Compare(userStart, tmp) < 0 {
      s := Encode(tmp, SeekTrailer);
      EncodeParts(tmp, SeekTrailer);
      assert Lt(userStart, tmp);
      Shortened(userStart, tmp, userLimit);
      UserDecides(start, s);
      UserDecides(s, limit);
    }
  }

  lemma {:induction false} Shortened(start: Bytes, s: Bytes, limit: Bytes)
    requires Le(start, limit) && Lt(start, s)
    requires Lt(start, limit) ==> Lt(s, limit)
    requires start == limit ==> s == start
    ensures Lt(s, limit)
  {
    RankOrders(start, limit);
  }

  /** FindShortSuccessor of the internal comparator. */
  method InternalSuccessor(key: Bytes) returns (s: Bytes)
    requires IsInternal(key)
    ensures IsInternal(s) && InternalOrder(key) <= InternalOrder(s) && |s| <= |key|
  {
    hide InternalOrder;
    var user := UserOf(key);
    var tmp := ShortSuccessor(user);
    s := key;
    if |tmp| < |user| && Compare(user, tmp) < 0 {
      RankOrders(user, tmp);
      s := Encode(tmp, SeekTrailer);
      EncodeParts(tmp, SeekTrailer);
      UserDecides(key, s);
    }
  }
}

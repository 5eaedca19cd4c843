/** Keys of the store.

    User keys reach the store as byte strings ordered by a comparator. Most of
    the store only ever compares them, so the modules above this one take user
    keys from the reals: `RankOrders` shows that the bytewise order embeds there,
    and every total order on a countable set does. Modules that look inside
    a key work on byte strings. */
module Keys {

  type Byte = b: int | 0 <= b < 256
  type Bytes = seq<Byte>

  /** Slice::compare: memcmp over the common length, then the shorter first. */
  function Compare(a: Bytes, b: Bytes): int {
    if a == [] && b == [] then 0
    else if a == [] then -1
    else if b == [] then 1
    else if a[0] < b[0] then -1
    else if a[0] > b[0] then 1
    else Compare(a[1..], b[1..])
  }

  /** A byte string read as a base-257 fraction; no digit is 0, so a proper
      prefix is strictly smaller. */
  function Rank(s: Bytes): (r: real)
    ensures 0.0 <= r < 1.0
  {
    if s == [] then 0.0 else (s[0] as real + 1.0 + Rank(s[1..])) / 257.0
  }

  /** The bytewise comparator is the order of the ranks, and ranks tell byte
      strings apart. */
  lemma {:induction false} RankOrders(a: Bytes, b: Bytes)
    ensures Compare(a, b) < 0 <==> Rank(a) < Rank(b)
    ensures Compare(a, b) == 0 <==> Rank(a) == Rank(b)
    ensures Rank(a) == Rank(b) <==> a == b
  {
    if a != [] && b != [] {
      RankOrders(a[1..], b[1..]);
      assert a == [a[0]] + a[1..] && b == [b[0]] + b[1..];
      if a[0] < b[0] {
        assert a[0] as real + 1.0 + Rank(a[1..]) < b[0] as real + 1.0 + Rank(b[1..]);
      } else if a[0] > b[0] {
        assert a[0] as real + 1.0 + Rank(a[1..]) > b[0] as real + 1.0 + Rank(b[1..]);
      }
    }
  }

  type UserKey = real

  datatype ValueType = Deletion | Value

  function Tag(t: ValueType): nat { if t.Deletion? then 0 else 1 }

  const KMaxSequenceNumber: nat := 0xff_ffff_ffff_ffff

  /** A parsed internal key. */
  datatype InternalKey = InternalKey(user: UserKey, sequence: nat, kind: ValueType)

  /** PackSequenceAndType. */
  function Pack(s: nat, t: ValueType): nat { s * 256 + Tag(t) }

  /** InternalKeyComparator::Compare(a, b) < 0: user keys ascending, then
      sequence numbers descending, then types descending. */
  predicate Before(a: InternalKey, b: InternalKey) {
    || a.user < b.user
    || (a.user == b.user && (a.sequence > b.sequence ||
                             (a.sequence == b.sequence && a.kind.Value? && b.kind.Deletion?)))
  }

  /** The comparator looks at the packed trailer only; that is the same order,
      and it is total. */
  lemma {:induction false} BeforeIsPackedOrder(a: InternalKey, b: InternalKey)
    ensures Before(a, b) <==>
              a.user < b.user || (a.user == b.user && Pack(a.sequence, a.kind) > Pack(b.sequence, b.kind))
    ensures Before(a, b) || Before(b, a) || a == b
    ensures !(Before(a, b) && Before(b, a))
  {
  }

  datatype Entry = Entry(key: InternalKey, value: Bytes)

  predicate Sorted(es: seq<Entry>) {
    forall i, j :: 0 <= i < j < |es| ==> Before(es[i].key, es[j].key)
  }

  /** Sorted, and no two versions of a user key share a sequence number: what
      the writers produce, since every operation gets a number of its own. */
  predicate Precedes(a: InternalKey, b: InternalKey) {
    a.user < b.user || (a.user == b.user && a.sequence > b.sequence)
  }

  predicate Versioned(es: seq<Entry>) {
    forall i, j :: 0 <= i < j < |es| ==> Precedes(es[i].key, es[j].key)
  }

  /** LookupKey(k, s): sorts before every version of k that s can see and after
      every version it cannot. */
  function LookupKey(k: UserKey, s: nat): InternalKey { InternalKey(k, s, Value) }
}

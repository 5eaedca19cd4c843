/** A cursor over a list of entries, which the iterators of the store are proved to be: a
    position, or the length of the list when it is nowhere. */
module Cursors {
  datatype Op<K> = SeekTo(k: K) | ToFirst | ToLast | Forth | Back

  /** Where a call moves the cursor of a list of `n` entries, if a seek for `k` leads to
      `first(k)`. */
  ghost function Moved<K(!new)>(n: nat, first: K -> nat, c: nat, op: Op<K>): nat {
    match op
    case SeekTo(k) => first(k)
    case ToFirst => 0
    case ToLast => if n == 0 then 0 else n - 1
    case Forth => c + 1
    case Back => if c == 0 then n else c - 1
  }

  /** Next and Prev are called only where the cursor stands at an entry. */
  ghost predicate Legal<K(!new)>(n: nat, first: K -> nat, c: nat, ops: seq<Op<K>>)
    decreases |ops|
  {
    ops == [] || ((ops[0].Forth? || ops[0].Back? ==> c < n) && Legal(n, first, Moved(n, first, c, ops[0]), ops[1..]))
  }

  ghost function MovedAll<K(!new)>(n: nat, first: K -> nat, c: nat, ops: seq<Op<K>>): nat
    decreases |ops|
  {
    if ops == [] then c else MovedAll(n, first, Moved(n, first, c, ops[0]), ops[1..])
  }
}

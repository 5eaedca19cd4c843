/** Write batches (db/write_batch.cc): a header of sequence number and count, then the
    operations one after the other. */
module WriteBatches {
  import opened Keys
  import opened Coding

  datatype Op = PutOp(key: Bytes, value: Bytes) | DeleteOp(key: Bytes)

  const KHeader: nat := 12
  const KTypeDeletion: Byte := 0
  const KTypeValue: Byte := 1

  // ----- the layout -----

  function OpBytes(op: Op): (b: Bytes)
    ensures |b| >= 2
  {
    match op
    case PutOp(key, value) => [KTypeValue] + (PutLengthPrefixed(key) + PutLengthPrefixed(value))
    case DeleteOp(key) => [KTypeDeletion] + PutLengthPrefixed(key)
  }

  function OpsBytes(ops: seq<Op>): Bytes {
    if ops == [] then [] else OpBytes(ops[0]) + OpsBytes(ops[1..])
  }

  predicate OpFits(op: Op) {
    |op.key| < TWO_32 && (op.PutOp? ==> |op.value| < TWO_32)
  }

  /** Lengths fit 32 bits and the count fits an int. */
  predicate OpsFit(ops: seq<Op>) {
    |ops| < 0x8000_0000 && forall i :: 0 <= i < |ops| ==> OpFits(ops[i])
  }

  function BatchBytes(sequence: U64, ops: seq<Op>): Bytes
    requires |ops| < TWO_32
  {
    EncodeFixed64(sequence) + EncodeFixed32(|ops|) + OpsBytes(ops)
  }

  lemma {:induction false} BatchParts(sequence: U64, ops: seq<Op>)
    requires |ops| < TWO_32
    ensures var rep := BatchBytes(sequence, ops);
            && |rep| == KHeader + |OpsBytes(ops)| && rep[..8] == EncodeFixed64(sequence)
            && rep[8..12] == EncodeFixed32(|ops|) && rep[12..] == OpsBytes(ops)
            && DecodeFixed64(rep) == sequence && DecodeFixed32(rep[8..]) == |ops|
  {
    var rep, a, b, c := BatchBytes(sequence, ops), EncodeFixed64(sequence), EncodeFixed32(|ops|), OpsBytes(ops);
    hide EncodeFixed32, EncodeFixed64, DecodeFixed32, DecodeFixed64, OpsBytes;
    assert rep == a + (b + c) && rep[8..] == b + c;
    Fixed64RoundTrip(sequence, b + c);
    Fixed32RoundTrip(|ops|, c);
  }

  lemma {:induction false} OpsConcat(a: seq<Op>, b: seq<Op>)
    ensures OpsBytes(a + b) == OpsBytes(a) + OpsBytes(b)
  {
    if a == [] {
      assert a + b == b;
    } else {
      assert (a + b)[1..] == a[1..] + b;
      OpsConcat(a[1..], b);
    }
  }

  lemma {:induction false} OpsSize(ops: seq<Op>)
    ensures |OpsBytes(ops)| >= 2 * |ops|
  {
    if ops != [] { OpsSize(ops[1..]); }
  }

  // ----- reading it back -----

  datatype Outcome = Fine | TooSmall | BadPut | BadDelete | UnknownTag | WrongCount

  /** The operations handed over, and how the reading ended. */
  datatype Reading = Reading(ops: seq<Op>, outcome: Outcome)

  /** One operation off the front. */
  function ParseOp(input: Bytes): (r: Parsed<Op>)
    requires input != []
    ensures r.Good? ==> |r.rest| < |input|
  {
    var tag, rest := input[0], input[1..];
    if tag == KTypeValue then
      var k := GetLengthPrefixed(rest);
      if k.Bad? then Bad
      else
        var v := GetLengthPrefixed(k.rest);
        if v.Bad? then Bad else Good(PutOp(k.value, v.value), v.rest)
    else if tag == KTypeDeletion then
      var k := GetLengthPrefixed(rest);
      if k.Bad? then Bad else Good(DeleteOp(k.value), k.rest)
    else Bad
  }

  function OutcomeOf(tag: Byte): Outcome {
    if tag == KTypeValue then BadPut else if tag == KTypeDeletion then BadDelete else UnknownTag
  }

  function Parse(input: Bytes): (r: Reading)
    decreases |input|
  {
    if input == [] then Reading([], Fine)
    else
      var op := ParseOp(input);
      if op.Bad? then Reading([], OutcomeOf(input[0]))
      else
        var more := Parse(op.rest);
        Reading([op.value] + more.ops, more.outcome)
  }

  lemma {:induction false} OpRoundTrip(op: Op, rest: Bytes)
    requires OpFits(op)
    ensures ParseOp(OpBytes(op) + rest) == Good(op, rest)
  {
    hide GetLengthPrefixed, PutLengthPrefixed;
    match op
    case PutOp(key, value) =>
      var k, v := PutLengthPrefixed(key), PutLengthPrefixed(value);
      Peeled(KTypeValue, k, v, rest);
      LengthPrefixedRoundTrip(key, v + rest);
      LengthPrefixedRoundTrip(value, rest);
    case DeleteOp(key) =>
      var k := PutLengthPrefixed(key);
      Peeled(KTypeDeletion, k, [], rest);
      assert k + [] == k && [] + rest == rest;
      LengthPrefixedRoundTrip(key, rest);
  }

  lemma {:induction false} Peeled(tag: Byte, k: Bytes, v: Bytes, rest: Bytes)
    ensures var all := [tag] + (k + v) + rest; all[0] == tag && all[1..] == k + (v + rest)
  {
    assert [tag] + (k + v) + rest == [tag] + (k + (v + rest));
  }

  lemma {:induction false} OpsRoundTrip(ops: seq<Op>)
    requires forall i :: 0 <= i < |ops| ==> OpFits(ops[i])
    ensures Parse(OpsBytes(ops)) == Reading(ops, Fine)
  {
    if ops != [] {
      hide ParseOp, OpBytes;
      var all := OpsBytes(ops);
      assert all == OpBytes(ops[0]) + OpsBytes(ops[1..]);
      OpRoundTrip(ops[0], OpsBytes(ops[1..]));
      assert |all| > 0;
      OpsRoundTrip(ops[1..]);
      assert [ops[0]] + ops[1..] == ops;
    }
  }

  /** WriteBatch::Iterate, for any bytes: the operations before the first that cannot be
      read go to the handler. */
  method Iterate(rep: Bytes) returns (ops: seq<Op>, outcome: Outcome)
    ensures |rep| < KHeader ==> outcome == TooSmall && ops == []
    ensures |rep| >= KHeader ==>
              var r := Parse(rep[KHeader..]);
              ops == r.ops && outcome == if r.outcome == Fine && |ops| != DecodeFixed32(rep[8..]) then WrongCount
                else r.outcome
  {
    ops := [];
    if |rep| < KHeader {
      return ops, TooSmall;
    }
    var input := rep[KHeader..];
    while input != []
      invariant var all := Parse(rep[KHeader..]);
                var r := Parse(input);
                all.ops == ops + r.ops && all.outcome == r.outcome
      decreases |input|
    {
      var op := ParseOp(input);
      if op.Bad? {
        outcome := OutcomeOf(input[0]);
        return;
      }
      ops := ops + [op.value];
      input := op.rest;
    }
    outcome := if |ops| != DecodeFixed32(rep[8..]) then WrongCount else Fine;
  }

  /** Operations with the sequence numbers they get. */
  datatype Numbered = Numbered(sequence: nat, op: Op)

  function Number(first: nat, ops: seq<Op>): (r: seq<Numbered>)
    ensures |r| == |ops|
  {
    seq(|ops|, i requires 0 <= i < |ops| => Numbered(first + i, ops[i]))
  }

  lemma {:induction false} NumberConcat(first: nat, a: seq<Op>, b: seq<Op>)
    ensures Number(first, a + b) == Number(first, a) + Number(first + |a|, b)
  {
  }

  /** WriteBatchInternal::InsertInto: what goes into the memtable. A batch gives back its
      operations, numbered on from its header. */
  method InsertInto(rep: Bytes, ghost sequence: U64, ghost ops: seq<Op>) returns (added: seq<Numbered>,
                    outcome: Outcome)
    requires |rep| >= KHeader
    ensures OpsFit(ops) && rep == BatchBytes(sequence, ops) ==> added == Number(sequence, ops) && outcome == Fine
  {
    var first := DecodeFixed64(rep);
    var read;
    read, outcome := Iterate(rep);
    added := Number(first, read);
    if OpsFit(ops) && rep == BatchBytes(sequence, ops) {
      hide DecodeFixed32, DecodeFixed64, BatchBytes, Parse;
      BatchParts(sequence, ops);
      OpsRoundTrip(ops);
    }
  }

  // ----- building it -----

  lemma {:induction false} ExtendedIs(sequence: U64, ops: seq<Op>, more: seq<Op>)
    requires OpsFit(ops) && OpsFit(ops + more)
    ensures |ops| < TWO_32 && |ops| + |more| < TWO_32 && |BatchBytes(sequence, ops)| >= 12
    ensures var rep := BatchBytes(sequence, ops);
            rep[..8] + EncodeFixed32(|ops| + |more|) + rep[12..] + OpsBytes(more) == BatchBytes(sequence, ops + more)
  {
    hide EncodeFixed32, EncodeFixed64, DecodeFixed32, DecodeFixed64, OpsBytes;
    BatchParts(sequence, ops);
    OpsConcat(ops, more);
    Glued(EncodeFixed64(sequence), EncodeFixed32(|ops| + |more|), OpsBytes(ops), OpsBytes(more));
  }

  lemma {:induction false} RestampedIs(sequence: U64, ops: seq<Op>, s: U64)
    requires OpsFit(ops)
    ensures |BatchBytes(sequence, ops)| >= 8 && EncodeFixed64(s) + BatchBytes(sequence, ops)[8..] == BatchBytes(s, ops)
  {
    hide EncodeFixed64, EncodeFixed32, OpsBytes;
    NewFront(EncodeFixed64(sequence), EncodeFixed64(s), EncodeFixed32(|ops|), OpsBytes(ops));
  }

  lemma {:induction false} NewFront(a: Bytes, a': Bytes, b: Bytes, c: Bytes)
    ensures a' + (a + b + c)[|a|..] == a' + b + c
  {
    assert a + b + c == a + (b + c);
    Glued(a', b, c, []);
  }

  lemma {:induction false} Glued(a: Bytes, b: Bytes, c: Bytes, d: Bytes)
    ensures a + b + c + d == a + b + (c + d) && a + (b + c) == a + b + c
  {
  }

  class WriteBatch {
    var rep: Bytes
    ghost var sequence: U64
    ghost var ops: seq<Op>

    ghost predicate Ok()
      reads this
    {
      OpsFit(ops) && rep == BatchBytes(sequence, ops)
    }

    constructor ()
      ensures Ok() && ops == [] && sequence == 0
    {
      rep := seq(KHeader, i => 0);
      sequence, ops := 0, [];
      new;
      assert BatchBytes(0, []) == rep;
    }

    /** A batch as its caller filled it. */
    constructor Of(rep: Bytes, ghost sequence: U64, ghost ops: seq<Op>)
      requires OpsFit(ops) && rep == BatchBytes(sequence, ops)
      ensures Ok() && this.rep == rep && this.sequence == sequence && this.ops == ops
    {
      this.rep, this.sequence, this.ops := rep, sequence, ops;
    }

    method Count() returns (n: nat)
      requires Ok()
      ensures n == |ops|
    {
      BatchParts(sequence, ops);
      n := DecodeFixed32(rep[8..]);
    }

    lemma {:induction false} OkParts()
      requires Ok()
      ensures OpsFit(ops) && |ops| < TWO_32 && rep == BatchBytes(sequence, ops)
    {
    }

    lemma {:induction false} OkWhole()
      requires OpsFit(ops) && |ops| < TWO_32 && rep == BatchBytes(sequence, ops)
      ensures Ok()
    {
    }

    /** SetCount and an append to the data, which Put, Delete and Append come down to. */
    method Extend(n: nat, data: Bytes, ghost more: seq<Op>)
      requires Ok() && OpsFit(ops + more) && data == OpsBytes(more) && n == |ops| + |more|
      modifies this
      ensures Ok() && ops == old(ops) + more && sequence == old(sequence)
    {
      hide *;
      OkParts();
      BatchParts(sequence, ops);
      ExtendedIs(sequence, ops, more);
      rep := rep[..8] + EncodeFixed32(n) + rep[12..];
      rep := rep + data;
      ops := ops + more;
      OkWhole();
    }

    method Put(key: Bytes, value: Bytes)
      requires Ok() && OpsFit(ops + [PutOp(key, value)])
      modifies this
      ensures Ok() && ops == old(ops) + [PutOp(key, value)] && sequence == old(sequence)
    {
      var n := Count();
      OneOp(PutOp(key, value));
      Extend(n + 1, [KTypeValue] + (PutLengthPrefixed(key) + PutLengthPrefixed(value)), [PutOp(key, value)]);
    }

    method Delete(key: Bytes)
      requires Ok() && OpsFit(ops + [DeleteOp(key)])
      modifies this
      ensures Ok() && ops == old(ops) + [DeleteOp(key)] && sequence == old(sequence)
    {
      var n := Count();
      OneOp(DeleteOp(key));
      Extend(n + 1, [KTypeDeletion] + PutLengthPrefixed(key), [DeleteOp(key)]);
    }

    method Append(src: WriteBatch)
      requires Ok() && src.Ok() && src != this && OpsFit(ops + src.ops)
      modifies this
      ensures Ok() && ops == old(ops) + src.ops && sequence == old(sequence)
    {
      var n := Count();
      var m := src.Count();
      BatchParts(src.sequence, src.ops);
      Extend(n + m, src.rep[KHeader..], src.ops);
    }

    method SetSequence(s: U64)
      requires Ok()
      modifies this
      ensures Ok() && ops == old(ops) && sequence == s
    {
      hide *;
      OkParts();
      BatchParts(sequence, ops);
      RestampedIs(sequence, ops, s);
      rep := EncodeFixed64(s) + rep[8..];
      sequence := s;
      OkWhole();
    }
  }

  lemma {:induction false} OneOp(op: Op)
    ensures OpsBytes([op]) == OpBytes(op)
  {
    assert [op][1..] == [];
  }
}

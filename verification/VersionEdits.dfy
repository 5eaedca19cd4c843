/** Version edits (db/version_edit.cc): the changes from one version to the next, and
    their encoding in the manifest. Internal keys are byte strings here. */
module VersionEdits {
  import opened Keys
  import opened Coding

  const KNumLevels: nat := 7

  datatype Meta = Meta(number: U64, size: U64, smallest: Bytes, largest: Bytes)

  datatype Maybe<T> = None | Some(value: T)

  datatype Gone = Gone(level: nat, number: U64)
  datatype Pointer = Pointer(level: nat, key: Bytes)
  datatype Added = Added(level: nat, file: Meta)

  /** `deleted` is a set that is gone through in ascending order. */
  datatype Edit = Edit(comparator: Maybe<Bytes>, logNumber: Maybe<U64>, prevLogNumber: Maybe<U64>,
                       nextFile: Maybe<U64>, lastSequence: Maybe<U64>,
                       pointers: seq<Pointer>, deleted: seq<Gone>, added: seq<Added>)

  function Empty(): Edit { Edit(None, None, None, None, None, [], [], []) }

  // ----- fields -----

  datatype Field =
    | Comparator(name: Bytes)
    | LogNumber(n: U64)
    | NextFileNumber(n: U64)
    | LastSequence(n: U64)
    | CompactPointer(p: Pointer)
    | DeletedFile(g: Gone)
    | NewFile(a: Added)
    | PrevLogNumber(n: U64)

  function FieldBytes(f: Field): (b: Bytes) {
    match f
    case Comparator(name) => Varint(1) + PutLengthPrefixed(name)
    case LogNumber(n) => Varint(2) + Varint(n)
    case NextFileNumber(n) => Varint(3) + Varint(n)
    case LastSequence(n) => Varint(4) + Varint(n)
    case CompactPointer(p) => Varint(5) + (Varint(p.level) + PutLengthPrefixed(p.key))
    case DeletedFile(g) => Varint(6) + (Varint(g.level) + Varint(g.number))
    case NewFile(a) =>
      Varint(7) + (Varint(a.level) + (Varint(a.file.number) + (Varint(a.file.size)
      + (PutLengthPrefixed(a.file.smallest) + PutLengthPrefixed(a.file.largest)))))
    case PrevLogNumber(n) => Varint(9) + Varint(n)
  }

  predicate FieldFits(f: Field) {
    match f
    case Comparator(name) => |name| < TWO_32
    case CompactPointer(p) => p.level < KNumLevels && |p.key| < TWO_32
    case DeletedFile(g) => g.level < KNumLevels
    case NewFile(a) => a.level < KNumLevels && |a.file.smallest| < TWO_32 && |a.file.largest| < TWO_32
    case _ => true
  }

  predicate AllFit(fs: seq<Field>) { forall i :: 0 <= i < |fs| ==> FieldFits(fs[i]) }

  function FieldsBytes(fs: seq<Field>): Bytes {
    if fs == [] then [] else FieldBytes(fs[0]) + FieldsBytes(fs[1..])
  }

  // ----- parsing -----

  function GetLevel(s: Bytes): (r: Parsed<nat>)
    ensures r.Good? ==> |r.rest| < |s| && r.value < KNumLevels
  {
    var v := GetVarint32(s);
    if v.Bad? || v.value >= KNumLevels then Bad else Good(v.value, v.rest)
  }

  function ParsePointer(s: Bytes): (r: Parsed<Pointer>)
    ensures r.Good? ==> |r.rest| <= |s|
  {
    var l := GetLevel(s);
    if l.Bad? then Bad
    else
      var k := GetLengthPrefixed(l.rest);
      if k.Bad? then Bad else Good(Pointer(l.value, k.value), k.rest)
  }

  function ParseGone(s: Bytes): (r: Parsed<Gone>)
    ensures r.Good? ==> |r.rest| <= |s|
  {
    var l := GetLevel(s);
    if l.Bad? then Bad
    else
      var n := GetVarint64(l.rest);
      if n.Bad? then Bad else Good(Gone(l.value, n.value), n.rest)
  }

  function ParseMeta(s: Bytes): (r: Parsed<Meta>)
    ensures r.Good? ==> |r.rest| <= |s|
  {
    var n := GetVarint64(s);
    if n.Bad? then Bad
    else
      var z := GetVarint64(n.rest);
      if z.Bad? then Bad
      else
        var a := GetLengthPrefixed(z.rest);
        if a.Bad? then Bad
        else
          var b := GetLengthPrefixed(a.rest);
          if b.Bad? then Bad else Good(Meta(n.value, z.value, a.value, b.value), b.rest)
  }

  function ParseAdded(s: Bytes): (r: Parsed<Added>)
    ensures r.Good? ==> |r.rest| <= |s|
  {
    var l := GetLevel(s);
    if l.Bad? then Bad
    else
      var m := ParseMeta(l.rest);
      if m.Bad? then Bad else Good(Added(l.value, m.value), m.rest)
  }

  function ParseNumber(s: Bytes, make: U64 -> Field): (r: Parsed<Field>)
    ensures r.Good? ==> |r.rest| <= |s|
  {
    var n := GetVarint64(s);
    if n.Bad? then Bad else Good(make(n.value), n.rest)
  }

  /** One field after its tag. */
  function ParseBody(tag: U32, s: Bytes): (r: Parsed<Field>)
    ensures r.Good? ==> |r.rest| <= |s|
  {
    if tag == 1 then
      var name := GetLengthPrefixed(s);
      if name.Bad? then Bad else Good(Comparator(name.value), name.rest)
    else if tag == 2 then ParseNumber(s, (n: U64) => LogNumber(n))
    else if tag == 3 then ParseNumber(s, (n: U64) => NextFileNumber(n))
    else if tag == 4 then ParseNumber(s, (n: U64) => LastSequence(n))
    else if tag == 5 then
      var p := ParsePointer(s);
      if p.Bad? then Bad else Good(CompactPointer(p.value), p.rest)
    else if tag == 6 then
      var g := ParseGone(s);
      if g.Bad? then Bad else Good(DeletedFile(g.value), g.rest)
    else if tag == 7 then
      var a := ParseAdded(s);
      if a.Bad? then Bad else Good(NewFile(a.value), a.rest)
    else if tag == 9 then ParseNumber(s, (n: U64) => PrevLogNumber(n))
    else Bad
  }

  lemma {:induction false} Next2(a: Bytes, b: Bytes, rest: Bytes)
    ensures a + b + rest == a + (b + rest)
  {
  }

  lemma {:induction false} LevelRoundTrip(level: nat, rest: Bytes)
    requires level < KNumLevels
    ensures GetLevel(Varint(level) + rest) == Good(level, rest)
  {
    Varint32RoundTrip(level, rest);
  }

  lemma {:induction false} MetaRoundTrip(f: Meta, rest: Bytes)
    requires |f.smallest| < TWO_32 && |f.largest| < TWO_32
    ensures ParseMeta(Varint(f.number) +
                      (Varint(f.size) + (PutLengthPrefixed(f.smallest) + PutLengthPrefixed(f.largest))) + rest) ==
                        Good(f, rest)
  {
    hide Varint, PutLengthPrefixed, GetVarint64, GetLengthPrefixed;
    var a, b, c, d := Varint(f.number), Varint(f.size), PutLengthPrefixed(f.smallest), PutLengthPrefixed(f.largest);
    Next2(a, b + (c + d), rest);
    Next2(b, c + d, rest);
    Next2(c, d, rest);
    Varint64RoundTrip(f.number, b + (c + d) + rest);
    Varint64RoundTrip(f.size, c + d + rest);
    LengthPrefixedRoundTrip(f.smallest, d + rest);
    LengthPrefixedRoundTrip(f.largest, rest);
  }

  function TagOf(f: Field): U32 {
    match f
    case Comparator(_) => 1
    case LogNumber(_) => 2
    case NextFileNumber(_) => 3
    case LastSequence(_) => 4
    case CompactPointer(_) => 5
    case DeletedFile(_) => 6
    case NewFile(_) => 7
    case PrevLogNumber(_) => 9
  }

  function BodyBytes(f: Field): Bytes {
    match f
    case Comparator(name) => PutLengthPrefixed(name)
    case LogNumber(n) => Varint(n)
    case NextFileNumber(n) => Varint(n)
    case LastSequence(n) => Varint(n)
    case CompactPointer(p) => Varint(p.level) + PutLengthPrefixed(p.key)
    case DeletedFile(g) => Varint(g.level) + Varint(g.number)
    case NewFile(a) =>
      Varint(a.level) + (Varint(a.file.number) +
                         (Varint(a.file.size) + (PutLengthPrefixed(a.file.smallest) +
                                                 PutLengthPrefixed(a.file.largest))))
    case PrevLogNumber(n) => Varint(n)
  }

  lemma {:induction false} NumberRoundTrip(tag: U32, n: U64, rest: Bytes)
    requires tag == 2 || tag == 3 || tag == 4 || tag == 9
    ensures ParseBody(tag, Varint(n) + rest) ==
            Good(if tag == 2 then LogNumber(n)
                 else if tag == 3 then NextFileNumber(n)
                      else if tag == 4 then LastSequence(n) else PrevLogNumber(n), rest)
  {
    hide Varint, GetVarint64;
    Varint64RoundTrip(n, rest);
  }

  lemma {:induction false} BodyRoundTrip(f: Field, rest: Bytes)
    requires FieldFits(f)
    ensures ParseBody(TagOf(f), BodyBytes(f) + rest) == Good(f, rest)
  {
    hide Varint, PutLengthPrefixed, GetVarint64, GetVarint32, GetLengthPrefixed, GetLevel, ParseMeta;
    match f
    case Comparator(name) => LengthPrefixedRoundTrip(name, rest);
    case LogNumber(n) => NumberRoundTrip(2, n, rest);
    case NextFileNumber(n) => NumberRoundTrip(3, n, rest);
    case LastSequence(n) => NumberRoundTrip(4, n, rest);
    case PrevLogNumber(n) => NumberRoundTrip(9, n, rest);
    case CompactPointer(p) =>
      Next2(Varint(p.level), PutLengthPrefixed(p.key), rest);
      LevelRoundTrip(p.level, PutLengthPrefixed(p.key) + rest);
      LengthPrefixedRoundTrip(p.key, rest);
    case DeletedFile(g) =>
      Next2(Varint(g.level), Varint(g.number), rest);
      LevelRoundTrip(g.level, Varint(g.number) + rest);
      Varint64RoundTrip(g.number, rest);
    case NewFile(a) =>
      var m := Varint(a.file.number) +
          (Varint(a.file.size) + (PutLengthPrefixed(a.file.smallest) + PutLengthPrefixed(a.file.largest)));
      Next2(Varint(a.level), m, rest);
      LevelRoundTrip(a.level, m + rest);
      MetaRoundTrip(a.file, rest);
  }

  lemma {:induction false} FieldIs(f: Field)
    ensures FieldBytes(f) == Varint(TagOf(f)) + BodyBytes(f)
  {
  }

  // ----- decoding -----

  predicate Earlier(g: Gone, h: Gone) { g.level < h.level || (g.level == h.level && g.number < h.number) }

  predicate Ascending(gs: seq<Gone>) { forall i, j :: 0 <= i < j < |gs| ==> Earlier(gs[i], gs[j]) }

  /** Insertion into the ordered set. */
  function InsertGone(gs: seq<Gone>, g: Gone): (r: seq<Gone>)
    requires Ascending(gs)
    ensures Ascending(r) && forall h :: h in r <==> h in gs || h == g
    ensures gs == [] || Earlier(gs[|gs| - 1], g) ==> r == gs + [g]
  {
    if gs == [] then [g]
    else
      var init, last := gs[..|gs| - 1], gs[|gs| - 1];
      assert gs == init + [last];
      if g == last then gs
      else if Earlier(last, g) then gs + [g]
      else
        var r := InsertGone(init, g);
        assert forall i :: 0 <= i < |r| ==> Earlier(r[i], last) by {
          forall i | 0 <= i < |r| ensures Earlier(r[i], last) { assert r[i] in r; }
        }
        r + [last]
  }

  function ApplyField(e: Edit, f: Field): (e': Edit)
    requires Ascending(e.deleted)
    ensures Ascending(e'.deleted)
  {
    match f
    case Comparator(name) => e.(comparator := Some(name))
    case LogNumber(n) => e.(logNumber := Some(n))
    case NextFileNumber(n) => e.(nextFile := Some(n))
    case LastSequence(n) => e.(lastSequence := Some(n))
    case CompactPointer(p) => e.(pointers := e.pointers + [p])
    case DeletedFile(g) => e.(deleted := InsertGone(e.deleted, g))
    case NewFile(a) => e.(added := e.added + [a])
    case PrevLogNumber(n) => e.(prevLogNumber := Some(n))
  }

  function ApplyFields(e: Edit, fs: seq<Field>): (e': Edit)
    requires Ascending(e.deleted)
    ensures Ascending(e'.deleted)
    decreases |fs|
  {
    if fs == [] then e else ApplyFields(ApplyField(e, fs[0]), fs[1..])
  }

  datatype Decoded = Decoded(edit: Edit, ok: bool)

  /** What reading on from `s` makes of `e`: it stops at the first field it cannot read. */
  function Decode(e: Edit, s: Bytes): (d: Decoded)
    requires Ascending(e.deleted)
    decreases |s|
  {
    var tag := GetVarint32(s);
    if tag.Bad? then Decoded(e, s == [])
    else
      var f := ParseBody(tag.value, tag.rest);
      if f.Bad? then Decoded(e, false) else Decode(ApplyField(e, f.value), f.rest)
  }

  /** DecodeFrom. */
  method DecodeFrom(src: Bytes) returns (d: Decoded)
    ensures d == Decode(Empty(), src)
  {
    var e, input := Empty(), src;
    while true
      invariant Ascending(e.deleted) && Decode(e, input) == Decode(Empty(), src)
      decreases |input|
    {
      var tag := GetVarint32(input);
      if tag.Bad? {
        return Decoded(e, input == []);
      }
      var f := ParseBody(tag.value, tag.rest);
      if f.Bad? {
        return Decoded(e, false);
      }
      e, input := ApplyField(e, f.value), f.rest;
    }
  }

  lemma {:induction false} FieldsRoundTrip(e: Edit, fs: seq<Field>)
    requires Ascending(e.deleted) && AllFit(fs)
    ensures Decode(e, FieldsBytes(fs)) == Decoded(ApplyFields(e, fs), true)
    decreases |fs|
  {
    if fs == [] {
      assert GetVarint32([]).Bad?;
    } else {
      hide ParseBody, GetVarint32, FieldBytes, BodyBytes, Varint, ApplyField;
      var f, rest := fs[0], FieldsBytes(fs[1..]);
      FieldIs(f);
      Next2(Varint(TagOf(f)), BodyBytes(f), rest);
      Varint32RoundTrip(TagOf(f), BodyBytes(f) + rest);
      BodyRoundTrip(f, rest);
      FieldsRoundTrip(ApplyField(e, f), fs[1..]);
    }
  }

  // ----- encoding -----

  // Each optional field is there or not.
  function LogField(n: Maybe<U64>): seq<Field> { if n.None? then [] else [LogNumber(n.value)] }
  function PrevField(n: Maybe<U64>): seq<Field> { if n.None? then [] else [PrevLogNumber(n.value)] }
  function NextField(n: Maybe<U64>): seq<Field> { if n.None? then [] else [NextFileNumber(n.value)] }
  function LastField(n: Maybe<U64>): seq<Field> { if n.None? then [] else [LastSequence(n.value)] }

  function NameField(name: Maybe<Bytes>): seq<Field> {
    if name.None? then [] else [Comparator(name.value)]
  }

  function Heads(e: Edit): seq<Field> {
    NameField(e.comparator) + (LogField(e.logNumber) +
                               (PrevField(e.prevLogNumber) + (NextField(e.nextFile) + LastField(e.lastSequence))))
  }

  function PointerFields(ps: seq<Pointer>): seq<Field> { seq(|ps|, i requires 0 <= i < |ps| => CompactPointer(ps[i])) }
  function DeletedFields(gs: seq<Gone>): seq<Field> { seq(|gs|, i requires 0 <= i < |gs| => DeletedFile(gs[i])) }
  function AddedFields(fs: seq<Added>): seq<Field> { seq(|fs|, i requires 0 <= i < |fs| => NewFile(fs[i])) }

  function Fields(e: Edit): seq<Field> {
    Heads(e) + PointerFields(e.pointers) + DeletedFields(e.deleted) + AddedFields(e.added)
  }

  predicate EditFits(e: Edit) {
    && (e.comparator.Some? ==> |e.comparator.value| < TWO_32)
    && (forall i :: 0 <= i < |e.pointers| ==> FieldFits(CompactPointer(e.pointers[i])))
    && (forall i :: 0 <= i < |e.deleted| ==> FieldFits(DeletedFile(e.deleted[i])))
    && (forall i :: 0 <= i < |e.added| ==> FieldFits(NewFile(e.added[i])))
    && Ascending(e.deleted)
  }

  function EditBytes(e: Edit): Bytes { FieldsBytes(Fields(e)) }

  lemma {:induction false} FieldsBytesSnoc(fs: seq<Field>, f: Field)
    ensures FieldsBytes(fs + [f]) == FieldsBytes(fs) + FieldBytes(f)
  {
    if fs == [] {
      assert (fs + [f])[1..] == [];
    } else {
      assert (fs + [f])[1..] == fs[1..] + [f];
      FieldsBytesSnoc(fs[1..], f);
      Next2(FieldBytes(fs[0]), FieldsBytes(fs[1..]), FieldBytes(f));
    }
  }

  lemma {:induction false} ApplyConcat(e: Edit, fs: seq<Field>, gs: seq<Field>)
    requires Ascending(e.deleted)
    ensures ApplyFields(e, fs + gs) == ApplyFields(ApplyFields(e, fs), gs)
    decreases |fs|
  {
    if fs == [] {
      assert fs + gs == gs;
    } else {
      assert (fs + gs)[1..] == fs[1..] + gs;
      ApplyConcat(ApplyField(e, fs[0]), fs[1..], gs);
    }
  }

  lemma {:induction false} ApplyHeads(e: Edit)
    ensures ApplyFields(Empty(), Heads(e)) == e.(pointers := [], deleted := [], added := [])
  {
    hide InsertGone, ApplyFields;
    var a, b, c, d, f := NameField(e.comparator), LogField(e.logNumber), PrevField(e.prevLogNumber),
        NextField(e.nextFile), LastField(e.lastSequence);
    var e0 := Empty();
    var e1 := e0.(comparator := e.comparator);
    var e2 := e1.(logNumber := e.logNumber);
    var e3 := e2.(prevLogNumber := e.prevLogNumber);
    var e4 := e3.(nextFile := e.nextFile);
    assert OneField(e0, a) == e1;
    assert OneField(e1, b) == e2;
    assert OneField(e2, c) == e3;
    assert OneField(e3, d) == e4;
    assert OneField(e4, f) == e4.(lastSequence := e.lastSequence);
    hide ApplyField, OneField, NameField, LogField, PrevField, NextField, LastField;
    ApplyThen(e0, a, b + (c + (d + f)));
    ApplyThen(e1, b, c + (d + f));
    ApplyThen(e2, c, d + f);
    ApplyThen(e3, d, f);
    ApplyThen(e4, f, []);
    assert f + [] == f;
    ApplyNone(e4.(lastSequence := e.lastSequence));
  }

  function OneField(e: Edit, fs: seq<Field>): (e': Edit)
    requires |fs| <= 1 && Ascending(e.deleted)
    ensures Ascending(e'.deleted)
  {
    if fs == [] then e else ApplyField(e, fs[0])
  }

  lemma {:induction false} ApplyNone(e: Edit)
    requires Ascending(e.deleted)
    ensures ApplyFields(e, []) == e
  {
  }

  lemma {:induction false} ApplyThen(e: Edit, fs: seq<Field>, rest: seq<Field>)
    requires |fs| <= 1 && Ascending(e.deleted)
    ensures ApplyFields(e, fs + rest) == ApplyFields(OneField(e, fs), rest)
  {
    if fs == [] { assert fs + rest == rest; } else { assert (fs + rest)[1..] == rest; }
  }

  lemma {:induction false} ApplyPointers(e: Edit, ps: seq<Pointer>)
    requires Ascending(e.deleted)
    ensures ApplyFields(e, PointerFields(ps)) == e.(pointers := e.pointers + ps)
    decreases |ps|
  {
    if ps == [] {
      assert PointerFields(ps) == [];
    } else {
      assert PointerFields(ps)[1..] == PointerFields(ps[1..]);
      ApplyPointers(e.(pointers := e.pointers + [ps[0]]), ps[1..]);
      assert e.pointers + [ps[0]] + ps[1..] == e.pointers + ps;
    }
  }

  lemma {:induction false} ApplyAdded(e: Edit, fs: seq<Added>)
    requires Ascending(e.deleted)
    ensures ApplyFields(e, AddedFields(fs)) == e.(added := e.added + fs)
    decreases |fs|
  {
    if fs == [] {
      assert AddedFields(fs) == [];
    } else {
      assert AddedFields(fs)[1..] == AddedFields(fs[1..]);
      ApplyAdded(e.(added := e.added + [fs[0]]), fs[1..]);
      assert e.added + [fs[0]] + fs[1..] == e.added + fs;
    }
  }

  /** Files deleted in ascending order go in at the end. */
  lemma {:induction false} ApplyDeleted(e: Edit, gs: seq<Gone>)
    requires Ascending(e.deleted + gs) && Ascending(e.deleted)
    ensures ApplyFields(e, DeletedFields(gs)) == e.(deleted := e.deleted + gs)
    decreases |gs|
  {
    if gs == [] {
      assert DeletedFields(gs) == [];
    } else {
      assert DeletedFields(gs)[1..] == DeletedFields(gs[1..]);
      var all := e.deleted + gs;
      assert all[|e.deleted|] == gs[0] && (e.deleted != [] ==> all[|e.deleted| - 1] == e.deleted[|e.deleted| - 1]);
      assert InsertGone(e.deleted, gs[0]) == e.deleted + [gs[0]];
      assert e.deleted + [gs[0]] + gs[1..] == all;
      assert Ascending(e.deleted + [gs[0]]) by { assert e.deleted + [gs[0]] == all[..|e.deleted| + 1]; }
      ApplyDeleted(e.(deleted := e.deleted + [gs[0]]), gs[1..]);
    }
  }

  lemma {:induction false} FieldsMakeEdit(e: Edit)
    requires Ascending(e.deleted)
    ensures ApplyFields(Empty(), Fields(e)) == e
  {
    hide ApplyFields, Heads, PointerFields, DeletedFields, AddedFields;
    var a, b, c, d := Heads(e), PointerFields(e.pointers), DeletedFields(e.deleted), AddedFields(e.added);
    ApplyConcat(Empty(), a + b + c, d);
    ApplyConcat(Empty(), a + b, c);
    ApplyConcat(Empty(), a, b);
    ApplyHeads(e);
    var e1 := e.(pointers := [], deleted := [], added := []);
    ApplyPointers(e1, e.pointers);
    assert [] + e.pointers == e.pointers && [] + e.deleted == e.deleted && [] + e.added == e.added;
    var e2 := e.(deleted := [], added := []);
    ApplyDeleted(e2, e.deleted);
    ApplyAdded(e.(added := []), e.added);
  }

  lemma {:induction false} FitConcat(fs: seq<Field>, gs: seq<Field>)
    requires AllFit(fs) && AllFit(gs)
    ensures AllFit(fs + gs)
  {
  }

  lemma {:induction false} HeadsFit(e: Edit)
    requires EditFits(e)
    ensures AllFit(Heads(e))
  {
    var a := NameField(e.comparator);
    var b, c := LogField(e.logNumber), PrevField(e.prevLogNumber);
    var d, f := NextField(e.nextFile), LastField(e.lastSequence);
    FitConcat(d, f);
    FitConcat(c, d + f);
    FitConcat(b, c + (d + f));
    FitConcat(a, b + (c + (d + f)));
  }

  lemma {:induction false} FieldsFit(e: Edit)
    requires EditFits(e)
    ensures AllFit(Fields(e))
  {
    hide Heads;
    HeadsFit(e);
    FitConcat(Heads(e), PointerFields(e.pointers));
    FitConcat(Heads(e) + PointerFields(e.pointers), DeletedFields(e.deleted));
    FitConcat(Heads(e) + PointerFields(e.pointers) + DeletedFields(e.deleted), AddedFields(e.added));
  }

  /** An edit read back is the edit written. */
  lemma {:induction false} EditRoundTrip(e: Edit)
    requires EditFits(e)
    ensures Decode(Empty(), EditBytes(e)) == Decoded(e, true)
  {
    hide Fields, Decode;
    FieldsFit(e);
    FieldsRoundTrip(Empty(), Fields(e));
    FieldsMakeEdit(e);
  }

  // ----- EncodeTo -----

  /** Appends one field, as the Put calls for it do. */
  method PutField(dst: Bytes, f: Field, ghost done: seq<Field>) returns (dst': Bytes)
    requires dst == FieldsBytes(done)
    ensures dst' == FieldsBytes(done + [f])
  {
    dst' := dst + FieldBytes(f);
    FieldsBytesSnoc(done, f);
  }

  /** Appends a field that may be missing. */
  method PutOptional(dst: Bytes, f: seq<Field>, ghost done: seq<Field>) returns (dst': Bytes)
    requires dst == FieldsBytes(done) && |f| <= 1
    ensures dst' == FieldsBytes(done + f)
  {
    if f == [] {
      dst' := dst;
      assert done + f == done;
    } else {
      dst' := PutField(dst, f[0], done);
      assert f == [f[0]];
    }
  }

  method EncodeHeads(e: Edit) returns (dst: Bytes)
    ensures dst == FieldsBytes(Heads(e))
  {
    ghost var a, b, c, d, f := NameField(e.comparator), LogField(e.logNumber), PrevField(e.prevLogNumber),
              NextField(e.nextFile), LastField(e.lastSequence);
    assert [] + a + b + c + d + f == Heads(e);
    assert |a| <= 1 && |b| <= 1 && |c| <= 1 && |d| <= 1 && |f| <= 1;
    hide *;
    NoBytes();
    dst := PutOptional([], NameField(e.comparator), []);
    dst := PutOptional(dst, LogField(e.logNumber), [] + a);
    dst := PutOptional(dst, PrevField(e.prevLogNumber), [] + a + b);
    dst := PutOptional(dst, NextField(e.nextFile), [] + a + b + c);
    dst := PutOptional(dst, LastField(e.lastSequence), [] + a + b + c + d);
  }

  lemma {:induction false} NoBytes()
    ensures FieldsBytes([]) == []
  {
  }

  method EncodeTo(e: Edit) returns (dst: Bytes)
    ensures dst == EditBytes(e)
  {
    hide FieldsBytes, FieldBytes, Heads;
    dst := EncodeHeads(e);
    ghost var done := Heads(e);
    for i := 0 to |e.pointers|
      invariant done == Heads(e) + PointerFields(e.pointers[..i]) && dst == FieldsBytes(done)
    {
      dst := PutField(dst, CompactPointer(e.pointers[i]), done);
      done := done + [CompactPointer(e.pointers[i])];
    }
    assert e.pointers[..|e.pointers|] == e.pointers;
    ghost var before := done;
    for i := 0 to |e.deleted|
      invariant done == before + DeletedFields(e.deleted[..i]) && dst == FieldsBytes(done)
    {
      dst := PutField(dst, DeletedFile(e.deleted[i]), done);
      done := done + [DeletedFile(e.deleted[i])];
    }
    assert e.deleted[..|e.deleted|] == e.deleted;
    before := done;
    for i := 0 to |e.added|
      invariant done == before + AddedFields(e.added[..i]) && dst == FieldsBytes(done)
    {
      dst := PutField(dst, NewFile(e.added[i]), done);
      done := done + [NewFile(e.added[i])];
    }
    assert e.added[..|e.added|] == e.added;
  }
}

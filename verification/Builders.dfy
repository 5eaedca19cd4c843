/** Applying version edits (db/version_set.cc, VersionSet::Builder): files deleted and
    added level by level, merged with the files of a base version. */
module Builders {
  import opened Keys
  import opened Coding
  import opened VersionEdits

  /** The order of internal keys, by rank. */
  type Order = Bytes -> real

  /** BySmallestKey: by smallest key, then by number. */
  predicate Less(ord: Order, f: Meta, g: Meta) {
    ord(f.smallest) < ord(g.smallest) || (ord(f.smallest) == ord(g.smallest) && f.number < g.number)
  }

  predicate InOrder(ord: Order, fs: seq<Meta>) {
    forall i, j :: 0 <= i < j < |fs| ==> Less(ord, fs[i], fs[j])
  }

  type Levels = seq<seq<Meta>>

  predicate LevelsOk(ord: Order, v: Levels) {
    |v| == KNumLevels && forall l :: 0 <= l < KNumLevels ==> InOrder(ord, v[l])
  }

  /** A list in order is determined by its members. */
  lemma {:induction false} OrderIsUnique(ord: Order, fs: seq<Meta>, gs: seq<Meta>)
    requires InOrder(ord, fs) && InOrder(ord, gs) && forall f :: f in fs <==> f in gs
    ensures fs == gs
    decreases |fs|
  {
    if fs == [] {
      NoMembers(gs);
    } else {
      assert fs[0] in gs;
      assert gs != [];
      assert gs[0] in fs;
      FirstIsLeast(ord, fs, gs[0]);
      FirstIsLeast(ord, gs, fs[0]);
      forall f ensures f in fs[1..] <==> f in gs[1..] {
        TailMembers(ord, fs, f);
        TailMembers(ord, gs, f);
      }
      OrderIsUnique(ord, fs[1..], gs[1..]);
    }
  }

  lemma {:induction false} NoMembers(gs: seq<Meta>)
    requires forall f :: f !in gs
    ensures gs == []
  {
    if gs != [] { HasMember(gs); }
  }

  lemma {:induction false} HasMember(gs: seq<Meta>)
    requires gs != []
    ensures exists f :: f in gs
  {
    assert gs[0] in gs;
  }

  lemma {:induction false} FirstIsLeast(ord: Order, fs: seq<Meta>, f: Meta)
    requires InOrder(ord, fs) && f in fs
    ensures f == fs[0] || Less(ord, fs[0], f)
  {
  }

  lemma {:induction false} TailMembers(ord: Order, fs: seq<Meta>, f: Meta)
    requires InOrder(ord, fs) && fs != []
    ensures f in fs[1..] <==> f in fs && f != fs[0]
  {
    if f in fs[1..] {
      var i :| 0 <= i < |fs[1..]| && fs[1..][i] == f;
      assert Less(ord, fs[0], fs[i + 1]);
    }
  }

  // ----- one level -----

  /** The files deleted and added at a level so far. */
  datatype LevelState = LevelState(deleted: set<U64>, added: seq<Meta>)

  predicate Same(ord: Order, f: Meta, g: Meta) { ord(f.smallest) == ord(g.smallest) && f.number == g.number }

  /** Insertion into the ordered set, which keeps the first of two equivalent files. */
  function InsertFile(ord: Order, fs: seq<Meta>, f: Meta): (r: seq<Meta>)
    requires InOrder(ord, fs)
    ensures InOrder(ord, r)
    ensures forall g :: g in r ==> g in fs || g == f
    ensures forall g :: g in fs ==> g in r
    ensures f in r || exists g :: g in fs && Same(ord, f, g)
  {
    if fs == [] then [f]
    else
      var init, last := fs[..|fs| - 1], fs[|fs| - 1];
      assert fs == init + [last];
      if Same(ord, f, last) then
        assert last in fs;
        fs
      else if Less(ord, last, f) then fs + [f]
      else
        var r := InsertFile(ord, init, f);
        assert forall i :: 0 <= i < |r| ==> Less(ord, r[i], last) by {
          forall i | 0 <= i < |r| ensures Less(ord, r[i], last) { assert r[i] in r; }
        }
        r + [last]
  }

  function Drop(st: LevelState, n: U64): LevelState { st.(deleted := st.deleted + {n}) }

  function Put(ord: Order, st: LevelState, f: Meta): LevelState
    requires InOrder(ord, st.added)
  {
    LevelState(st.deleted - {f.number}, InsertFile(ord, st.added, f))
  }

  predicate Alive(st: LevelState, f: Meta) { f in st.added && f.number !in st.deleted }

  // ----- all levels -----

  type Build = seq<LevelState>

  predicate BuildOk(ord: Order, b: Build) {
    |b| == KNumLevels && forall l :: 0 <= l < KNumLevels ==> InOrder(ord, b[l].added)
  }

  function Fresh(): Build { seq(KNumLevels, i => LevelState({}, [])) }

  function DropAll(b: Build, gs: seq<Gone>): (r: Build)
    ensures |r| == |b|
  {
    if gs == [] then b
    else
      var g, r := gs[|gs| - 1], DropAll(b, gs[..|gs| - 1]);
      if g.level < |r| then r[g.level := Drop(r[g.level], g.number)] else r
  }

  function PutAll(ord: Order, b: Build, fs: seq<Added>): (r: Build)
    requires BuildOk(ord, b)
    ensures BuildOk(ord, r)
  {
    if fs == [] then b
    else
      var a, r := fs[|fs| - 1], PutAll(ord, b, fs[..|fs| - 1]);
      if a.level < |r| then r[a.level := Put(ord, r[a.level], a.file)] else r
  }

  lemma {:induction false} DropAllIs(ord: Order, b: Build, gs: seq<Gone>, l: nat)
    requires BuildOk(ord, b) && l < KNumLevels
    ensures BuildOk(ord, DropAll(b, gs)) && DropAll(b, gs)[l].added == b[l].added
    ensures forall n :: n in DropAll(b, gs)[l].deleted <==> n in b[l].deleted || Gone(l, n) in gs
  {
    if gs != [] {
      var init, g := gs[..|gs| - 1], gs[|gs| - 1];
      assert gs == init + [g];
      forall m | 0 <= m < KNumLevels { DropAllIs(ord, b, init, m); }
    }
  }

  /** A number always carries the same metadata. */
  ghost predicate Registered(reg: U64 -> Meta, f: Meta) { f == reg(f.number) }

  ghost predicate BuildRegistered(reg: U64 -> Meta, b: Build) {
    forall l, f :: 0 <= l < |b| && f in b[l].added ==> Registered(reg, f)
  }

  ghost predicate EditRegistered(reg: U64 -> Meta, fs: seq<Added>) {
    forall i :: 0 <= i < |fs| ==> Registered(reg, fs[i].file)
  }

  /** What adding does to a level. */
  lemma {:induction false} PutAllIs(ord: Order, reg: U64 -> Meta, b: Build, fs: seq<Added>, l: nat)
    requires BuildOk(ord, b) && BuildRegistered(reg, b) && EditRegistered(reg, fs) && l < KNumLevels
    ensures BuildRegistered(reg, PutAll(ord, b, fs))
    ensures forall f :: f in PutAll(ord, b, fs)[l].added <==> f in b[l].added || Added(l, f) in fs
    ensures forall f :: Registered(reg, f) ==>
              (f.number in PutAll(ord, b, fs)[l].deleted <==> f.number in b[l].deleted && Added(l, f) !in fs)
  {
    if fs != [] {
      var init, a := fs[..|fs| - 1], fs[|fs| - 1];
      assert fs == init + [a];
      forall m | 0 <= m < KNumLevels
        ensures BuildRegistered(reg, PutAll(ord, b, init))
        ensures forall f :: f in PutAll(ord, b, init)[m].added <==> f in b[m].added || Added(m, f) in init
        ensures forall f :: Registered(reg, f) ==>
                  (f.number in PutAll(ord, b, init)[m].deleted <==> f.number in b[m].deleted && Added(m, f) !in init)
      {
        PutAllIs(ord, reg, b, init, m);
      }
      PutOne(ord, reg, PutAll(ord, b, init), a, l);
    }
  }

  lemma {:induction false} PutOne(ord: Order, reg: U64 -> Meta, b: Build, a: Added, l: nat)
    requires BuildOk(ord, b) && BuildRegistered(reg, b) && Registered(reg, a.file) && l < KNumLevels
    ensures var b' := if a.level < |b| then b[a.level := Put(ord, b[a.level], a.file)] else b;
            && BuildRegistered(reg, b')
            && (forall f :: f in b'[l].added <==> f in b[l].added || Added(l, f) == a)
            && (forall f :: Registered(reg, f) ==>
                  (f.number in b'[l].deleted <==> f.number in b[l].deleted && Added(l, f) != a))
  {
    if a.level < |b| {
      hide InsertFile;
      InsertIsIn(ord, reg, b[a.level].added, a.file);
    }
  }

  lemma {:induction false} InsertIsIn(ord: Order, reg: U64 -> Meta, fs: seq<Meta>, f: Meta)
    requires InOrder(ord, fs) && Registered(reg, f) && forall g :: g in fs ==> Registered(reg, g)
    ensures f in InsertFile(ord, fs, f)
  {
    hide InsertFile;
    forall g | g in fs && Same(ord, f, g) ensures g == f { assert Registered(reg, g); }
  }

  // ----- an edit -----

  function Applied(ord: Order, b: Build, e: Edit): (b': Build)
    requires BuildOk(ord, b)
    ensures BuildOk(ord, b')
  {
    DropsOk(ord, b, e.deleted);
    PutAll(ord, DropAll(b, e.deleted), e.added)
  }

  lemma {:induction false} DropsOk(ord: Order, b: Build, gs: seq<Gone>)
    requires BuildOk(ord, b)
    ensures BuildOk(ord, DropAll(b, gs))
  {
    DropAllIs(ord, b, gs, 0);
  }

  /** The files of a level after an edit: what it adds, and what was there and is not
      deleted. */
  predicate After(e: Edit, l: nat, before: bool, f: Meta) {
    Added(l, f) in e.added || (before && Gone(l, f.number) !in e.deleted)
  }

  lemma {:induction false} DropsRegistered(ord: Order, reg: U64 -> Meta, b: Build, gs: seq<Gone>)
    requires BuildOk(ord, b) && BuildRegistered(reg, b)
    ensures BuildRegistered(reg, DropAll(b, gs))
  {
    forall l | 0 <= l < KNumLevels ensures DropAll(b, gs)[l].added == b[l].added { DropAllIs(ord, b, gs, l); }
  }

  lemma {:induction false} AppliedIs(ord: Order, reg: U64 -> Meta, b: Build, e: Edit, l: nat, f: Meta)
    requires BuildOk(ord, b) && BuildRegistered(reg, b) && EditRegistered(reg, e.added) && l < KNumLevels
    ensures BuildRegistered(reg, Applied(ord, b, e))
    ensures Registered(reg, f) ==> (Alive(Applied(ord, b, e)[l], f) <==> After(e, l, Alive(b[l], f), f))
  {
    hide DropAll, PutAll, Registered;
    DropsOk(ord, b, e.deleted);
    DropAllIs(ord, b, e.deleted, l);
    DropsRegistered(ord, reg, b, e.deleted);
    PutAllIs(ord, reg, DropAll(b, e.deleted), e.added, l);
  }

  // ----- saving -----

  /** The members of a level once saved: base files and added ones that are not deleted. */
  predicate Saved(base: seq<Meta>, st: LevelState, f: Meta) {
    (f in base || f in st.added) && f.number !in st.deleted
  }

  /** No added file is equivalent to one of the base. */
  predicate Apart(ord: Order, base: seq<Meta>, added: seq<Meta>) {
    forall f, g :: f in base && g in added ==> !Same(ord, f, g)
  }

  /** Whatever is in `out` comes before `f`. */
  predicate AllLess(ord: Order, out: seq<Meta>, f: Meta) { forall i :: 0 <= i < |out| ==> Less(ord, out[i], f) }

  method MaybeAddFile(st: LevelState, out: seq<Meta>, f: Meta) returns (out': seq<Meta>)
    ensures out' == if f.number in st.deleted then out else out + [f]
  {
    out' := if f.number in st.deleted then out else out + [f];
  }

  /** What has gone out after `i` base files and `j` added ones. */
  ghost predicate Merged(ord: Order, base: seq<Meta>, st: LevelState, i: nat, j: nat, out: seq<Meta>)
    requires i <= |base| && j <= |st.added|
  {
    && InOrder(ord, out)
    && (forall f :: f in out <==> (f in base[..i] || f in st.added[..j]) && f.number !in st.deleted)
    && (forall k :: i <= k < |base| ==> AllLess(ord, out, base[k]))
    && (forall k :: j <= k < |st.added| ==> AllLess(ord, out, st.added[k]))
  }

  lemma {:induction false} OutBase(ord: Order, base: seq<Meta>, st: LevelState, i: nat, j: nat, out: seq<Meta>,
                                   out': seq<Meta>)
    requires InOrder(ord, base) && InOrder(ord, st.added) && Apart(ord, base, st.added)
    requires i < |base| && j <= |st.added| && Merged(ord, base, st, i, j, out)
    requires j < |st.added| ==> !Less(ord, st.added[j], base[i])
    requires out' == if base[i].number in st.deleted then out else out + [base[i]]
    ensures Merged(ord, base, st, i + 1, j, out')
  {
    assert base[..i + 1] == base[..i] + [base[i]];
    forall k | j <= k < |st.added| ensures Less(ord, base[i], st.added[k]) {
      assert !Same(ord, base[i], st.added[j]);
      assert j < k ==> Less(ord, st.added[j], st.added[k]);
    }
  }

  lemma {:induction false} OutAdded(ord: Order, base: seq<Meta>, st: LevelState, i: nat, j: nat, out: seq<Meta>,
                                    out': seq<Meta>)
    requires InOrder(ord, base) && InOrder(ord, st.added)
    requires i <= |base| && j < |st.added| && Merged(ord, base, st, i, j, out)
    requires i < |base| ==> Less(ord, st.added[j], base[i])
    requires out' == if st.added[j].number in st.deleted then out else out + [st.added[j]]
    ensures Merged(ord, base, st, i, j + 1, out')
  {
    assert st.added[..j + 1] == st.added[..j] + [st.added[j]];
    forall k | i <= k < |base| ensures Less(ord, st.added[j], base[k]) {
      assert i < k ==> Less(ord, base[i], base[k]);
    }
  }

  /** One level of SaveTo. */
  method SaveLevel(ord: Order, base: seq<Meta>, st: LevelState) returns (out: seq<Meta>)
    requires InOrder(ord, base) && InOrder(ord, st.added)
    ensures Apart(ord, base, st.added) ==> InOrder(ord, out) && forall f :: f in out <==> Saved(base, st, f)
  {
    hide *;
    ghost var apart := Apart(ord, base, st.added);
    out := [];
    MergedStart(ord, base, st);
    var i := 0;
    for j := 0 to |st.added|
      invariant i <= |base| && (apart ==> Merged(ord, base, st, i, j, out))
    {
      // upper_bound: past every base file that does not come after the added one
      while i < |base| && !Less(ord, st.added[j], base[i])
        invariant i <= |base| && (apart ==> Merged(ord, base, st, i, j, out))
      {
        ghost var was := out;
        out := MaybeAddFile(st, out, base[i]);
        if apart { OutBase(ord, base, st, i, j, was, out); }
        i := i + 1;
      }
      ghost var was := out;
      out := MaybeAddFile(st, out, st.added[j]);
      if apart { OutAdded(ord, base, st, i, j, was, out); }
    }
    while i < |base|
      invariant i <= |base| && (apart ==> Merged(ord, base, st, i, |st.added|, out))
    {
      ghost var was := out;
      out := MaybeAddFile(st, out, base[i]);
      if apart { OutBase(ord, base, st, i, |st.added|, was, out); }
      i := i + 1;
    }
    if apart { MergedEnd(ord, base, st, out); }
  }

  lemma {:induction false} MergedStart(ord: Order, base: seq<Meta>, st: LevelState)
    ensures Merged(ord, base, st, 0, 0, [])
  {
  }

  lemma {:induction false} MergedEnd(ord: Order, base: seq<Meta>, st: LevelState, out: seq<Meta>)
    requires Merged(ord, base, st, |base|, |st.added|, out)
    ensures InOrder(ord, out) && forall f :: f in out <==> Saved(base, st, f)
  {
    assert base[..|base|] == base && st.added[..|st.added|] == st.added;
  }

  class Builder {
    const ord: Order
    const base: Levels
    var levels: Build
    /** The edits applied so far, from the first. */
    ghost var edits: seq<Edit>

    ghost predicate Ok()
      reads this
    {
      LevelsOk(ord, base) && levels == AppliedAll(ord, edits) && BuildOk(ord, levels)
    }

    constructor (ord: Order, base: Levels)
      requires LevelsOk(ord, base)
      ensures Ok() && this.ord == ord && this.base == base && edits == []
    {
      this.ord, this.base, this.edits := ord, base, [];
      this.levels := Fresh();
    }

    method Apply(e: Edit)
      requires Ok()
      modifies this
      ensures Ok() && edits == old(edits) + [e]
    {
      hide Applied, PutAll, DropAll, InsertFile;
      ghost var b := levels;
      DropNone(b);
      for i := 0 to |e.deleted|
        invariant levels == DropAll(b, e.deleted[..i]) && edits == old(edits)
      {
        DropNext(b, e.deleted, i);
        var g := e.deleted[i];
        if g.level < |levels| {
          levels := levels[g.level := Drop(levels[g.level], g.number)];
        }
      }
      assert e.deleted[..|e.deleted|] == e.deleted;
      ghost var d := levels;
      DropsOk(ord, b, e.deleted);
      PutNone(ord, d);
      for i := 0 to |e.added|
        invariant BuildOk(ord, levels) && levels == PutAll(ord, d, e.added[..i]) && edits == old(edits)
      {
        PutNext(ord, d, e.added, i);
        var a := e.added[i];
        if a.level < |levels| {
          levels := levels[a.level := Put(ord, levels[a.level], a.file)];
        }
      }
      assert e.added[..|e.added|] == e.added;
      AppliedFold(ord, b, e);
      AppliedNext(ord, edits, e);
      edits := edits + [e];
    }

    /** The version that the base and the edits make. */
    method SaveTo() returns (v: Levels)
      requires Ok()
      ensures |v| == KNumLevels
      ensures forall l :: 0 <= l < KNumLevels && Apart(ord, base[l], levels[l].added) ==>
                InOrder(ord, v[l]) && forall f :: f in v[l] <==> Saved(base[l], levels[l], f)
    {
      v := [];
      for l := 0 to KNumLevels
        invariant |v| == l
        invariant forall k :: 0 <= k < l && Apart(ord, base[k], levels[k].added) ==>
                    InOrder(ord, v[k]) && forall f :: f in v[k] <==> Saved(base[k], levels[k], f)
      {
        var out := SaveLevel(ord, base[l], levels[l]);
        v := v + [out];
      }
    }
  }

  /** What a fresh builder has after some edits. */
  function AppliedAll(ord: Order, edits: seq<Edit>): (b: Build)
    ensures BuildOk(ord, b)
  {
    if edits == [] then Fresh() else Applied(ord, AppliedAll(ord, edits[..|edits| - 1]), edits[|edits| - 1])
  }

  lemma {:induction false} AppliedNext(ord: Order, edits: seq<Edit>, e: Edit)
    ensures AppliedAll(ord, edits + [e]) == Applied(ord, AppliedAll(ord, edits), e)
  {
    assert (edits + [e])[..|edits|] == edits;
  }

  lemma {:induction false} AppliedFold(ord: Order, b: Build, e: Edit)
    requires BuildOk(ord, b) && BuildOk(ord, DropAll(b, e.deleted))
    ensures Applied(ord, b, e) == PutAll(ord, DropAll(b, e.deleted), e.added)
  {
  }

  lemma {:induction false} DropNone(b: Build)
    ensures DropAll(b, []) == b
  {
  }

  lemma {:induction false} DropNext(b: Build, gs: seq<Gone>, i: nat)
    requires i < |gs|
    ensures var g, r := gs[i], DropAll(b, gs[..i]);
            DropAll(b, gs[..i + 1]) == if g.level < |r| then r[g.level := Drop(r[g.level], g.number)] else r
  {
    assert gs[..i + 1][..i] == gs[..i];
  }

  lemma {:induction false} PutNone(ord: Order, b: Build)
    requires BuildOk(ord, b)
    ensures PutAll(ord, b, []) == b
  {
  }

  lemma {:induction false} PutNext(ord: Order, b: Build, fs: seq<Added>, i: nat)
    requires BuildOk(ord, b) && i < |fs|
    ensures var a, r := fs[i], PutAll(ord, b, fs[..i]);
            PutAll(ord, b, fs[..i + 1]) == if a.level < |r| then r[a.level := Put(ord, r[a.level], a.file)] else r
  {
    assert fs[..i + 1][..i] == fs[..i];
  }
}

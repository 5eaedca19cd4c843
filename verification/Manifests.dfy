/** The manifest (db/version_set.cc, LogAndApply, WriteSnapshot and Recover): versions made
    one edit at a time, and the same version made from the log of all the edits. */
module Manifests {
  import opened Keys
  import opened Coding
  import opened VersionEdits
  import opened Builders
  import Logs

  function NoFiles(): Levels { seq(KNumLevels, i => []) }

  // ----- one edit -----

  /** `v'` is `v` with the edit applied. */
  ghost predicate StepTo(ord: Order, v: Levels, e: Edit, v': Levels) {
    && LevelsOk(ord, v) && LevelsOk(ord, v')
    && forall l, f :: 0 <= l < KNumLevels ==> (f in v'[l] <==> After(e, l, f in v[l], f))
  }

  ghost predicate VersionRegistered(reg: U64 -> Meta, v: Levels) {
    forall l, f :: 0 <= l < |v| && f in v[l] ==> Registered(reg, f)
  }

  /** No file is added to a level that holds it. */
  ghost predicate Tame(v: Levels, e: Edit) {
    forall i, f :: 0 <= i < |e.added| && e.added[i].level < |v| && f in v[e.added[i].level] ==>
      f.number != e.added[i].file.number
  }

  lemma {:induction false} FreshIs(ord: Order, reg: U64 -> Meta)
    ensures BuildOk(ord, Fresh()) && BuildRegistered(reg, Fresh())
  {
  }

  /** A builder over `v` with one edit keeps apart what it adds from what was there. */
  lemma {:induction false} TameIsApart(ord: Order, reg: U64 -> Meta, v: Levels, e: Edit, l: nat)
    requires LevelsOk(ord, v) && Tame(v, e) && EditRegistered(reg, e.added) && l < KNumLevels
    ensures BuildOk(ord, Fresh()) && Builders.Apart(ord, v[l], Applied(ord, Fresh(), e)[l].added)
  {
    FreshIs(ord, reg);
    DropsOk(ord, Fresh(), e.deleted);
    DropsRegistered(ord, reg, Fresh(), e.deleted);
    DropAllIs(ord, Fresh(), e.deleted, l);
    PutAllIs(ord, reg, DropAll(Fresh(), e.deleted), e.added, l);
    hide DropAll, PutAll;
    forall f, g | f in v[l] && g in Applied(ord, Fresh(), e)[l].added ensures !Same(ord, f, g) {
      assert Added(l, g) in e.added;
      var i :| 0 <= i < |e.added| && e.added[i] == Added(l, g);
    }
  }

  lemma {:induction false} SavedIsAfter(ord: Order, reg: U64 -> Meta, v: Levels, e: Edit, l: nat, f: Meta)
    requires LevelsOk(ord, v) && VersionRegistered(reg, v) && EditRegistered(reg, e.added) && l < KNumLevels
    ensures BuildOk(ord, Fresh()) && (Saved(v[l], Applied(ord, Fresh(), e)[l], f) <==> After(e, l, f in v[l], f))
  {
    FreshIs(ord, reg);
    DropsOk(ord, Fresh(), e.deleted);
    DropsRegistered(ord, reg, Fresh(), e.deleted);
    DropAllIs(ord, Fresh(), e.deleted, l);
    PutAllIs(ord, reg, DropAll(Fresh(), e.deleted), e.added, l);
    hide DropAll, PutAll;
    if Added(l, f) in e.added {
      var i :| 0 <= i < |e.added| && e.added[i] == Added(l, f);
      assert Registered(reg, e.added[i].file);
    }
  }

  /** The version part of LogAndApply. */
  method ApplyEdit(ord: Order, v: Levels, e: Edit, ghost reg: U64 -> Meta) returns (v': Levels)
    requires LevelsOk(ord, v) && VersionRegistered(reg, v) && Tame(v, e) && EditRegistered(reg, e.added)
    ensures StepTo(ord, v, e, v') && VersionRegistered(reg, v')
  {
    var b := new Builder(ord, v);
    b.Apply(e);
    hide Applied, InOrder, Saved, After, Registered;
    OneEdit(ord, e);
    v' := b.SaveTo();
    forall l | 0 <= l < KNumLevels
      ensures InOrder(ord, v'[l]) && forall f :: f in v'[l] <==> After(e, l, f in v[l], f)
    {
      TameIsApart(ord, reg, v, e, l);
      forall f ensures f in v'[l] <==> After(e, l, f in v[l], f) { SavedIsAfter(ord, reg, v, e, l, f); }
    }
    StepRegistered(ord, reg, v, e, v');
  }

  lemma {:induction false} OneEdit(ord: Order, e: Edit)
    ensures BuildOk(ord, Fresh()) && AppliedAll(ord, [] + [e]) == Applied(ord, Fresh(), e)
  {
    AppliedNext(ord, [], e);
  }

  lemma {:induction false} StepRegistered(ord: Order, reg: U64 -> Meta, v: Levels, e: Edit, v': Levels)
    requires StepTo(ord, v, e, v') && VersionRegistered(reg, v) && EditRegistered(reg, e.added)
    ensures VersionRegistered(reg, v')
  {
    forall l, f | 0 <= l < |v'| && f in v'[l] ensures Registered(reg, f) {
      if Added(l, f) in e.added {
        var i :| 0 <= i < |e.added| && e.added[i] == Added(l, f);
        assert Registered(reg, e.added[i].file);
      }
    }
  }

  // ----- a run of edits -----

  /** The versions that a run of edits goes through, from no files at all. */
  ghost predicate Chain(ord: Order, reg: U64 -> Meta, edits: seq<Edit>, vs: seq<Levels>) {
    && |vs| == |edits| + 1 && vs[0] == NoFiles()
    && (forall i :: 0 <= i < |edits| ==> StepTo(ord, vs[i], edits[i], vs[i + 1]))
    && (forall i :: 0 <= i < |edits| ==> EditRegistered(reg, edits[i].added))
  }

  lemma {:induction false} ChainPrefix(ord: Order, reg: U64 -> Meta, edits: seq<Edit>, vs: seq<Levels>, m: nat)
    requires Chain(ord, reg, edits, vs) && m <= |edits|
    ensures Chain(ord, reg, edits[..m], vs[..m + 1])
  {
    hide StepTo;
    forall i | 0 <= i < m ensures StepTo(ord, vs[..m + 1][i], edits[..m][i], vs[..m + 1][i + 1]) {
      assert StepTo(ord, vs[i], edits[i], vs[i + 1]);
    }
  }

  lemma {:induction false} ChainMore(ord: Order, reg: U64 -> Meta, edits: seq<Edit>, vs: seq<Levels>, e: Edit,
                                     v: Levels)
    requires Chain(ord, reg, edits, vs) && StepTo(ord, vs[|edits|], e, v) && EditRegistered(reg, e.added)
    ensures Chain(ord, reg, edits + [e], vs + [v])
  {
    hide StepTo;
    var es, ws := edits + [e], vs + [v];
    forall i | 0 <= i < |es| ensures StepTo(ord, ws[i], es[i], ws[i + 1]) && EditRegistered(reg, es[i].added) {
      if i < |edits| { assert StepTo(ord, vs[i], edits[i], vs[i + 1]); }
    }
  }

  /** The builder that has seen the first `k` edits has alive what the version after them
      has. */
  lemma {:induction false} ReplayInv(ord: Order, reg: U64 -> Meta, edits: seq<Edit>, vs: seq<Levels>, k: nat)
    requires Chain(ord, reg, edits, vs) && k <= |edits|
    ensures BuildRegistered(reg, AppliedAll(ord, edits[..k])) && |vs[k]| == KNumLevels && VersionRegistered(reg, vs[k])
    ensures forall l, f :: 0 <= l < KNumLevels && Registered(reg, f) ==>
              (Alive(AppliedAll(ord, edits[..k])[l], f) <==> f in vs[k][l])
  {
    if k == 0 {
      assert edits[..0] == [];
    } else {
      hide Applied, AppliedAll, Registered, Alive, After;
      ReplayInv(ord, reg, edits, vs, k - 1);
      var e, b := edits[k - 1], AppliedAll(ord, edits[..k - 1]);
      assert edits[..k] == edits[..k - 1] + [e];
      AppliedNext(ord, edits[..k - 1], e);
      assert StepTo(ord, vs[k - 1], e, vs[k - 1 + 1]);
      assert EditRegistered(reg, edits[k - 1].added);
      StepRegistered(ord, reg, vs[k - 1], e, vs[k]);
      AppliedIs(ord, reg, b, e, 0, reg(0));
      forall l, f | 0 <= l < KNumLevels && Registered(reg, f)
        ensures Alive(Applied(ord, b, e)[l], f) <==> f in vs[k][l]
      {
        AppliedIs(ord, reg, b, e, l, f);
      }
    }
  }

  /** Saved over no files, the builder gives the version itself. */
  lemma {:induction false} ReplayIsChain(ord: Order, reg: U64 -> Meta, edits: seq<Edit>, vs: seq<Levels>, v: Levels)
    requires Chain(ord, reg, edits, vs) && |v| == KNumLevels
    requires forall l :: 0 <= l < KNumLevels ==>
               InOrder(ord, v[l]) && forall f :: f in v[l] <==> Saved([], AppliedAll(ord, edits)[l], f)
    ensures v == vs[|edits|]
  {
    hide AppliedAll, InOrder;
    var b, w := AppliedAll(ord, edits), vs[|edits|];
    assert edits[..|edits|] == edits;
    ReplayInv(ord, reg, edits, vs, |edits|);
    ChainSorted(ord, reg, edits, vs);
    forall l | 0 <= l < KNumLevels ensures v[l] == w[l] {
      forall f ensures f in v[l] <==> f in w[l] { MemberOf(reg, b, w, l, f); }
      OrderIsUnique(ord, v[l], w[l]);
    }
  }

  lemma {:induction false} MemberOf(reg: U64 -> Meta, b: Build, w: Levels, l: nat, f: Meta)
    requires l < |b| && l < |w| && BuildRegistered(reg, b) && VersionRegistered(reg, w)
    requires Registered(reg, f) ==> (Alive(b[l], f) <==> f in w[l])
    ensures Saved([], b[l], f) <==> f in w[l]
  {
  }

  lemma {:induction false} ChainSorted(ord: Order, reg: U64 -> Meta, edits: seq<Edit>, vs: seq<Levels>)
    requires Chain(ord, reg, edits, vs)
    ensures LevelsOk(ord, vs[|edits|])
  {
    if edits != [] {
      assert StepTo(ord, vs[|edits| - 1], edits[|edits| - 1], vs[|edits| - 1 + 1]);
    }
  }

  // ----- the snapshot -----

  function LevelAdded(l: nat, fs: seq<Meta>): seq<Added> { seq(|fs|, i requires 0 <= i < |fs| => Added(l, fs[i])) }

  function AllAdded(v: Levels, n: nat): seq<Added>
    requires n <= |v|
  {
    if n == 0 then [] else AllAdded(v, n - 1) + LevelAdded(n - 1, v[n - 1])
  }

  function Snapshot(name: Bytes, v: Levels): Edit { Empty().(comparator := Some(name), added := AllAdded(v, |v|)) }

  lemma {:induction false} InLevelAdded(l: nat, fs: seq<Meta>, a: Added)
    ensures a in LevelAdded(l, fs) <==> a.level == l && a.file in fs
  {
    if a.level == l && a.file in fs {
      var i :| 0 <= i < |fs| && fs[i] == a.file;
      assert LevelAdded(l, fs)[i] == a;
    }
  }

  lemma {:induction false} InAllAdded(v: Levels, n: nat, a: Added)
    requires n <= |v|
    ensures a in AllAdded(v, n) <==> a.level < n && a.file in v[a.level]
  {
    if n > 0 {
      InAllAdded(v, n - 1, a);
      InLevelAdded(n - 1, v[n - 1], a);
    }
  }

  method WriteSnapshot(name: Bytes, v: Levels) returns (e: Edit)
    ensures e == Snapshot(name, v)
  {
    var added: seq<Added> := [];
    for l := 0 to |v|
      invariant added == AllAdded(v, l)
    {
      ghost var before := added;
      for i := 0 to |v[l]|
        invariant added == before + LevelAdded(l, v[l][..i])
      {
        added := added + [Added(l, v[l][i])];
      }
      assert v[l][..|v[l]|] == v[l];
    }
    e := Empty().(comparator := Some(name), added := added);
  }

  /** The snapshot leads from no files to the version. */
  lemma {:induction false} SnapshotSteps(ord: Order, reg: U64 -> Meta, name: Bytes, v: Levels)
    requires LevelsOk(ord, v) && VersionRegistered(reg, v)
    ensures StepTo(ord, NoFiles(), Snapshot(name, v), v) && EditRegistered(reg, Snapshot(name, v).added)
  {
    var e := Snapshot(name, v);
    forall l, f | 0 <= l < KNumLevels
      ensures f in v[l] <==> After(e, l, f in NoFiles()[l], f)
    {
      InAllAdded(v, |v|, Added(l, f));
    }
    forall i | 0 <= i < |e.added| ensures Registered(reg, e.added[i].file) {
      InAllAdded(v, |v|, e.added[i]);
      assert e.added[i] in e.added;
    }
  }

  predicate FilesFit(v: Levels) {
    forall l, f :: 0 <= l < |v| && f in v[l] ==> FieldFits(NewFile(Added(l, f)))
  }

  lemma {:induction false} SnapshotFits(name: Bytes, v: Levels)
    requires |name| < TWO_32 && FilesFit(v)
    ensures EditFits(Snapshot(name, v))
  {
    var e := Snapshot(name, v);
    forall i | 0 <= i < |e.added| ensures FieldFits(NewFile(e.added[i])) {
      InAllAdded(v, |v|, e.added[i]);
      assert e.added[i] in e.added;
    }
  }

  lemma {:induction false} StepFits(ord: Order, v: Levels, e: Edit, v': Levels)
    requires StepTo(ord, v, e, v') && FilesFit(v) && EditFits(e)
    ensures FilesFit(v')
  {
    forall l, f | 0 <= l < |v'| && f in v'[l] ensures FieldFits(NewFile(Added(l, f))) {
      if Added(l, f) in e.added {
        var i :| 0 <= i < |e.added| && e.added[i] == Added(l, f);
        assert FieldFits(NewFile(e.added[i]));
      }
    }
  }

  // ----- the numbers -----

  datatype Numbers = Numbers(log: Maybe<U64>, prev: Maybe<U64>, next: Maybe<U64>, last: Maybe<U64>)

  function Later(a: Maybe<U64>, b: Maybe<U64>): Maybe<U64> { if b.Some? then b else a }

  function Take(n: Numbers, e: Edit): Numbers {
    Numbers(Later(n.log, e.logNumber), Later(n.prev, e.prevLogNumber), Later(n.next, e.nextFile),
            Later(n.last, e.lastSequence))
  }

  /** The last of each number that the edits carry. */
  function Summary(edits: seq<Edit>): Numbers {
    if edits == [] then Numbers(None, None, None, None) else Take(Summary(edits[..|edits| - 1]), edits[|edits| - 1])
  }

  lemma {:induction false} SummaryMore(edits: seq<Edit>, e: Edit)
    ensures Summary(edits + [e]) == Take(Summary(edits), e)
  {
    assert (edits + [e])[..|edits|] == edits;
  }

  // ----- the log of edits -----

  function RecordsOf(edits: seq<Edit>): (r: seq<Bytes>)
    ensures |r| == |edits|
  {
    seq(|edits|, i requires 0 <= i < |edits| => EditBytes(edits[i]))
  }

  predicate EditOk(name: Bytes, e: Edit) {
    EditFits(e) && (e.comparator.Some? ==> e.comparator.value == name)
  }

  predicate EditsOk(name: Bytes, edits: seq<Edit>) { forall i :: 0 <= i < |edits| ==> EditOk(name, edits[i]) }

  lemma {:induction false} RecordsMore(name: Bytes, edits: seq<Edit>, e: Edit)
    requires EditsOk(name, edits) && EditOk(name, e)
    ensures RecordsOf(edits + [e]) == RecordsOf(edits) + [EditBytes(e)] && EditsOk(name, edits + [e])
  {
  }

  class VersionSet {
    const ord: Order
    const name: Bytes
    var current: Levels
    var logging: bool
    var records: seq<Bytes>
    var logNumber: U64
    var prevLogNumber: U64
    var nextFile: U64
    var lastSequence: U64
    ghost const reg: U64 -> Meta
    ghost var edits: seq<Edit>
    ghost var vs: seq<Levels>

    /** The manifest tells how the current version came about. */
    ghost predicate Told()
      reads this
    {
      && Chain(ord, reg, edits, vs) && vs[|edits|] == current
      && EditsOk(name, edits) && records == RecordsOf(edits)
      && Summary(edits).log == Some(logNumber) && Summary(edits).prev == Some(prevLogNumber)
    }

    ghost predicate Ok()
      reads this
    {
      && LevelsOk(ord, current) && VersionRegistered(reg, current) && FilesFit(current) && |name| < TWO_32
      && (logging ==> Told())
    }

    /** The edit with the numbers that LogAndApply fills in. */
    function Filled(e: Edit): (e': Edit)
      reads this
    {
      e.(logNumber := Some(if e.logNumber.Some? then e.logNumber.value else logNumber),
         prevLogNumber := Some(if e.prevLogNumber.Some? then e.prevLogNumber.value else prevLogNumber),
         nextFile := Some(nextFile), lastSequence := Some(lastSequence))
    }

    method LogAndApply(edit: Edit)
      requires Ok() && EditFits(edit) && edit.comparator.None? && Tame(current, edit) && EditRegistered(reg, edit.added)
      requires edit.logNumber.Some? ==> logNumber <= edit.logNumber.value < nextFile
      modifies this
      ensures Ok() && logging && StepTo(ord, old(current), old(Filled(edit)), current)
      ensures edits == (if old(logging) then old(edits) else [Snapshot(name, old(current))]) + [old(Filled(edit))]
      ensures nextFile == old(nextFile) && lastSequence == old(lastSequence)
    {
      hide *;
      OkParts(this);
      FilledIs(this, edit);
      var e := Filled(edit);
      var v := ApplyEdit(ord, current, e, reg);
      if !logging {
        var snapshot := WriteSnapshot(name, current);
        var first := EncodeTo(snapshot);
        records, edits, vs := [first], [snapshot], [NoFiles(), current];
        FirstTold(ord, reg, name, current, first);
      } else {
        ToldParts(this);
      }
      var record := EncodeTo(e);
      ChainMore(ord, reg, edits, vs, e, v);
      RecordsMore(name, edits, e);
      SummaryMore(edits, e);
      TakeIs(Summary(edits), e);
      StepFits(ord, current, e, v);
      StepSorted(ord, current, e, v);
      records, edits, vs := records + [record], edits + [e], vs + [v];
      current, logNumber, prevLogNumber, logging := v, e.logNumber.value, e.prevLogNumber.value, true;
      ToldWhole(this);
      OkWhole(this);
    }
  }

  lemma {:induction false} OkParts(s: VersionSet)
    requires s.Ok()
    ensures LevelsOk(s.ord, s.current) && VersionRegistered(s.reg, s.current) && FilesFit(s.current) &&
            |s.name| < TWO_32
    ensures s.logging ==> s.Told()
  {
  }

  lemma {:induction false} OkWhole(s: VersionSet)
    requires LevelsOk(s.ord, s.current) && VersionRegistered(s.reg, s.current) && FilesFit(s.current) &&
             |s.name| < TWO_32
    requires s.logging ==> s.Told()
    ensures s.Ok()
  {
  }

  lemma {:induction false} ToldParts(s: VersionSet)
    requires s.Told()
    ensures Chain(s.ord, s.reg, s.edits, s.vs) && |s.vs| == |s.edits| + 1 && s.vs[|s.edits|] == s.current
    ensures EditsOk(s.name, s.edits) && s.records == RecordsOf(s.edits)
  {
  }

  lemma {:induction false} ToldWhole(s: VersionSet)
    requires Chain(s.ord, s.reg, s.edits, s.vs) && |s.vs| == |s.edits| + 1 && s.vs[|s.edits|] == s.current
    requires EditsOk(s.name, s.edits) && s.records == RecordsOf(s.edits)
    requires Summary(s.edits).log == Some(s.logNumber) && Summary(s.edits).prev == Some(s.prevLogNumber)
    ensures s.Told()
  {
  }

  lemma {:induction false} FilledIs(s: VersionSet, e: Edit)
    requires EditFits(e) && e.comparator.None? && Tame(s.current, e)
    ensures var e' := s.Filled(e);
            && e'.added == e.added && e'.deleted == e.deleted && e'.logNumber.Some? && e'.prevLogNumber.Some?
            && EditFits(e') && EditOk(s.name, e') && Tame(s.current, e')
  {
  }

  lemma {:induction false} TakeIs(n: Numbers, e: Edit)
    requires e.logNumber.Some? && e.prevLogNumber.Some?
    ensures Take(n, e).log == e.logNumber && Take(n, e).prev == e.prevLogNumber
  {
  }

  lemma {:induction false} StepSorted(ord: Order, v: Levels, e: Edit, v': Levels)
    requires StepTo(ord, v, e, v')
    ensures LevelsOk(ord, v')
  {
  }

  lemma {:induction false} FirstTold(ord: Order, reg: U64 -> Meta, name: Bytes, v: Levels, first: Bytes)
    requires LevelsOk(ord, v) && VersionRegistered(reg, v) && FilesFit(v) && |name| < TWO_32 &&
             first == EditBytes(Snapshot(name, v))
    ensures Chain(ord, reg, [Snapshot(name, v)], [NoFiles(), v]) && EditsOk(name, [Snapshot(name, v)]) &&
            [first] == RecordsOf([Snapshot(name, v)])
  {
    SnapshotSteps(ord, reg, name, v);
    SnapshotFits(name, v);
    hide StepTo, EditFits, EditRegistered, EditBytes;
    var es, ws := [Snapshot(name, v)], [NoFiles(), v];
    forall i | 0 <= i < |es|
      ensures StepTo(ord, ws[i], es[i], ws[i + 1]) && EditRegistered(reg, es[i].added) && EditOk(name, es[i])
    {
    }
  }

  // ----- recovery -----

  datatype Recovered = Failed | Recovered(levels: Levels, log: U64, prev: U64, next: U64, last: U64)

  predicate Complete(n: Numbers) { n.next.Some? && n.log.Some? && n.last.Some? }

  function Outcome(n: Numbers, v: Levels): Recovered {
    if Complete(n) then Recovered(v, n.log.value, if n.prev.Some? then n.prev.value else 0, n.next.value, n.last.value)
      else Failed
  }

  /** What is left of the manifest when it is cut: so many whole records. */
  function Kept(edits: seq<Edit>, t: nat): nat { |Logs.Whole(0, RecordsOf(edits), t)| }

  lemma {:induction false} KeptIs(edits: seq<Edit>, t: nat)
    ensures Kept(edits, t) <= |edits| && Logs.Whole(0, RecordsOf(edits), t) == RecordsOf(edits[..Kept(edits, t)])
  {
    Logs.WholePrefix(0, RecordsOf(edits), t);
    var w, m := Logs.Whole(0, RecordsOf(edits), t), Kept(edits, t);
    forall i | 0 <= i < m ensures w[i] == EditBytes(edits[..m][i]) { assert w[i] == RecordsOf(edits)[i]; }
  }

  lemma {:induction false} KeptAll(step: CrcStep, edits: seq<Edit>)
    ensures Kept(edits, |Logs.Stream(step, 0, RecordsOf(edits))|) == |edits|
  {
    Logs.WholeLog(step, 0, RecordsOf(edits));
  }

  /** VersionSet::Recover over a manifest, cut anywhere: the version and the numbers after
      the edits that are still whole, as they were when these had been applied. */
  method Recover(ord: Order, step: CrcStep, name: Bytes, file: Bytes, ghost reg: U64 -> Meta, ghost edits: seq<Edit>,
                 ghost vs: seq<Levels>)
    returns (r: Recovered)
    requires Chain(ord, reg, edits, vs) && EditsOk(name, edits)
    ensures file <= Logs.Stream(step, 0, RecordsOf(edits)) ==>
              && var m := Kept(edits, |file|);
              && m <= |edits| && m < |vs| && r == Outcome(Summary(edits[..m]), vs[m])
              && (|file| == |Logs.Stream(step, 0, RecordsOf(edits))| ==> m == |edits|)
  {
    hide *;
    KeptAll(step, edits);
    ghost var good := file <= Logs.Stream(step, 0, RecordsOf(edits));
    ghost var m := Kept(edits, |file|);
    KeptIs(edits, |file|);
    ChainPrefix(ord, reg, edits, vs, m);
    ghost var es := edits[..m];
    var records, corruptions := Logs.ReadAll(step, file, RecordsOf(edits));
    NoFilesOk(ord);
    var b := new Builder(ord, NoFiles());
    var n := Numbers(None, None, None, None);
    SummaryNone();
    for i := 0 to |records|
      invariant fresh(b) && b.Ok() && b.ord == ord && b.base == NoFiles()
      invariant good ==> |records| == |es| && b.edits == es[..i] && n == Summary(es[..i])
    {
      var d := DecodeFrom(records[i]);
      if good { RecordDecodes(name, edits, m, i); }
      if !d.ok || (d.edit.comparator.Some? && d.edit.comparator.value != name) {
        return Failed;
      }
      if good {
        SummaryMore(es[..i], es[i]);
        assert es[..i + 1] == es[..i] + [es[i]];
      }
      b.Apply(d.edit);
      n := Take(n, d.edit);
    }
    var v := b.SaveTo();
    r := Outcome(n, v);
    if good {
      assert es[..|es|] == es;
      BuilderParts(b);
      ChainSize(ord, reg, edits, vs);
      ReplayedLevels(ord, reg, es, vs[..m + 1], b.levels, v);
      assert vs[..m + 1][|es|] == vs[m];
    }
  }

  lemma {:induction false} ChainSize(ord: Order, reg: U64 -> Meta, edits: seq<Edit>, vs: seq<Levels>)
    requires Chain(ord, reg, edits, vs)
    ensures |vs| == |edits| + 1
  {
  }

  lemma {:induction false} NoFilesOk(ord: Order)
    ensures LevelsOk(ord, NoFiles())
  {
  }

  lemma {:induction false} SummaryNone()
    ensures Summary([]) == Numbers(None, None, None, None)
  {
  }

  lemma {:induction false} RecordDecodes(name: Bytes, edits: seq<Edit>, m: nat, i: nat)
    requires EditsOk(name, edits) && m <= |edits| && i < m
    ensures RecordsOf(edits[..m])[i] == EditBytes(edits[..m][i]) &&
            Decode(Empty(), EditBytes(edits[..m][i])) == Decoded(edits[..m][i], true)
    ensures edits[..m][i].comparator.Some? ==> edits[..m][i].comparator.value == name
  {
    hide EditFits, Decode, EditBytes;
    assert EditOk(name, edits[i]);
    EditRoundTrip(edits[i]);
  }

  lemma {:induction false} BuilderParts(b: Builder)
    requires b.Ok()
    ensures b.levels == AppliedAll(b.ord, b.edits) && |b.levels| == KNumLevels && |b.base| == KNumLevels
  {
  }

  lemma {:induction false} ReplayedLevels(ord: Order, reg: U64 -> Meta, edits: seq<Edit>, vs: seq<Levels>, b: Build,
                                          v: Levels)
    requires Chain(ord, reg, edits, vs) && b == AppliedAll(ord, edits) && |b| == KNumLevels && |v| == KNumLevels &&
             |NoFiles()| == KNumLevels
    requires forall l :: 0 <= l < KNumLevels && Builders.Apart(ord, NoFiles()[l], b[l].added) ==>
               InOrder(ord, v[l]) && forall f :: f in v[l] <==> Saved(NoFiles()[l], b[l], f)
    ensures |vs| == |edits| + 1 && v == vs[|edits|]
  {
    hide AppliedAll, InOrder, Saved;
    forall l | 0 <= l < KNumLevels ensures InOrder(ord, v[l]) && forall f :: f in v[l] <==> Saved([], b[l], f) {
      assert Builders.Apart(ord, NoFiles()[l], b[l].added);
    }
    ReplayIsChain(ord, reg, edits, vs, v);
  }
}

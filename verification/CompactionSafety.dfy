/** Installing a compaction changes no read that a live snapshot can make, and
    keeps the invariant of the version. */
module CompactionSafety {
  import opened Keys
  import opened Versions
  import opened Inputs
  import opened Compactions
  import opened LevelSets
  import opened LevelReads

  // ----- the version that is installed -----

  /** The files of a level that are not inputs, in their order. */
  function Minus(files: seq<FileMeta>, gone: seq<FileMeta>): seq<FileMeta> {
    if files == [] then []
    else
      var rest := Minus(files[..|files| - 1], gone);
      if files[|files| - 1] in gone then rest else rest + [files[|files| - 1]]
  }

  lemma {:induction false} MinusIs(files: seq<FileMeta>, gone: seq<FileMeta>)
    ensures forall f :: f in Minus(files, gone) <==> f in files && f !in gone
    ensures Disjoint(files) ==> Disjoint(Minus(files, gone))
    ensures DistinctNumbers(files) ==> DistinctNumbers(Minus(files, gone))
  {
    if files != [] {
      var init, last := files[..|files| - 1], files[|files| - 1];
      assert files == init + [last];
      MinusIs(init, gone);
      var rest := Minus(init, gone);
      if Disjoint(files) {
        forall i | 0 <= i < |rest| ensures Precedes(rest[i].largest, last.smallest) {
          assert rest[i] in init;
        }
      }
      if DistinctNumbers(files) {
        forall i | 0 <= i < |rest| ensures rest[i].number != last.number {
          assert rest[i] in init;
        }
      }
    }
  }

  /** Files in ascending order of their smallest key, none of them twice. */
  ghost predicate BySmallest(files: seq<FileMeta>) {
    forall i, j :: 0 <= i < j < |files| ==> !Before(files[j].smallest, files[i].smallest) && files[i] != files[j]
  }

  ghost predicate AreUnion(files: seq<FileMeta>, a: seq<FileMeta>, b: seq<FileMeta>) {
    forall f :: f in files <==> f in a || f in b
  }

  /** The version after the inputs are deleted and the outputs added. */
  ghost predicate Installed(v: Version, v': Version, level: nat, in0: seq<FileMeta>, in1: seq<FileMeta>,
                            outs: seq<FileMeta>)
    requires |v.levels| == KNumLevels && level + 1 < KNumLevels
  {
    && |v'.levels| == KNumLevels
    && (forall l :: 0 <= l < KNumLevels && l != level && l != level + 1 ==> v'.levels[l] == v.levels[l])
    && v'.levels[level] == Minus(v.levels[level], in0)
    && BySmallest(v'.levels[level + 1])
    && AreUnion(v'.levels[level + 1], Minus(v.levels[level + 1], in1), outs)
  }

  // ----- what a compaction wrote -----

  ghost predicate IsInput(disk: Disk, in0: seq<FileMeta>, in1: seq<FileMeta>, e: Entry) {
    InLevel(disk, in0, e) || InLevel(disk, in1, e)
  }

  /** Leaving out `e` is invisible: a newer input hides it from every snapshot from
      `ss` on, or it is an obsolete deletion and nothing older was written. */
  ghost predicate Justified(disk: Disk, disk': Disk, v: Version, level: nat, in0: seq<FileMeta>, in1: seq<FileMeta>,
                            outs: seq<FileMeta>, ss: nat, e: Entry)
  {
    || (exists h :: IsInput(disk, in0, in1, h) && h.key.user == e.key.user && e.key.sequence < h.key.sequence <= ss)
    || (Obsolete(v, level, e, ss) &&
        forall x :: InLevel(disk', outs, x) && x.key.user == e.key.user ==> x.key.sequence > e.key.sequence)
  }

  ghost predicate Result(disk: Disk, disk': Disk, v: Version, level: nat, in0: seq<FileMeta>, in1: seq<FileMeta>,
                         outs: seq<FileMeta>, ss: nat)
  {
    && Extends(disk, disk')
    && AllStored(disk', outs) && Disjoint(outs)
    && (forall e :: InLevel(disk', outs, e) ==> IsInput(disk, in0, in1, e))
    && (forall e :: IsInput(disk, in0, in1, e) ==>
          InLevel(disk', outs, e) || Justified(disk, disk', v, level, in0, in1, outs, ss, e))
  }

  /** The merged input stream. */
  ghost predicate Merged(disk: Disk, in0: seq<FileMeta>, in1: seq<FileMeta>, stream: seq<Entry>) {
    Versioned(stream) && forall e :: e in stream <==> IsInput(disk, in0, in1, e)
  }

  /** What DoCompactionWork leaves behind is a compaction result. */
  lemma {:induction false} WorkGivesResult(disk: Disk, next: nat, v: Version, level: nat, in0: seq<FileMeta>,
                                           in1: seq<FileMeta>,
                        stream: seq<Entry>, o: Outputs, ss: nat)
    requires Merged(disk, in0, in1, stream)
    requires Wrote(disk, next, o, Survivors(v, level, stream, |stream|, ss)) && o.builder == []
    ensures Result(disk, o.disk, v, level, in0, in1, o.outs, ss)
  {
    var kept := Survivors(v, level, stream, |stream|, ss);
    SurvivorsAre(v, level, stream, |stream|, ss);
    assert Concat(o.disk, o.outs) == kept;
    forall i | 0 <= i < |o.outs| ensures o.outs[i].number in o.disk { assert Describes(o.disk, o.outs[i]); }
    ConcatStored(o.disk, o.outs);
    ConcatMembers(o.disk, o.outs);
    forall e | IsInput(disk, in0, in1, e)
      ensures e in kept || Justified(disk, o.disk, v, level, in0, in1, o.outs, ss, e)
    {
      var i :| 0 <= i < |stream| && stream[i] == e;
      DropIsJustified(disk, v, level, in0, in1, stream, o, ss, i);
    }
  }

  lemma {:induction false} DropIsJustified(disk: Disk, v: Version, level: nat, in0: seq<FileMeta>, in1: seq<FileMeta>,
                        stream: seq<Entry>, o: Outputs, ss: nat, i: nat)
    requires Merged(disk, in0, in1, stream) && i < |stream|
    requires forall e :: InLevel(o.disk, o.outs, e) <==> e in Survivors(v, level, stream, |stream|, ss)
    ensures stream[i] in Survivors(v, level, stream, |stream|, ss)
            || Justified(disk, o.disk, v, level, in0, in1, o.outs, ss, stream[i])
  {
    SurvivorsAre(v, level, stream, |stream|, ss);
    var e := stream[i];
    if Hidden(stream, i, ss) {
      var j :| 0 <= j < i && stream[j].key.user == e.key.user && stream[j].key.sequence <= ss;
      assert stream[j] in stream && Precedes(stream[j].key, stream[i].key);
    } else if Obsolete(v, level, e, ss) {
      forall x | InLevel(o.disk, o.outs, x) && x.key.user == e.key.user ensures x.key.sequence > e.key.sequence {
        var j :| 0 <= j < |stream| && stream[j] == x && !Dropped(v, level, stream, j, ss);
        assert !Hidden(stream, j, ss);
        assert j < i ==> Precedes(stream[j].key, stream[i].key);
      }
    }
  }

  /** A trivial move hands the one input down unchanged. */
  lemma {:induction false} MoveGivesResult(disk: Disk, v: Version, level: nat, f: FileMeta, ss: nat)
    requires Stored(disk, f)
    ensures Result(disk, disk, v, level, [f], [], [f], ss)
  {
  }

  // ----- levels as sets -----

  lemma {:induction false} LevelSplit(disk: Disk, files: seq<FileMeta>, gone: seq<FileMeta>, e: Entry)
    requires Subset(gone, files)
    ensures InLevel(disk, files, e) <==> InLevel(disk, Minus(files, gone), e) || InLevel(disk, gone, e)
  {
    MinusIs(files, gone);
    var rest := Minus(files, gone);
    if InLevel(disk, files, e) {
      var i :| 0 <= i < |files| && InFile(disk, files[i], e);
      if files[i] in gone { InMember(disk, gone, files[i], e); } else { InMember(disk, rest, files[i], e); }
    }
    if InLevel(disk, rest, e) {
      var i :| 0 <= i < |rest| && InFile(disk, rest[i], e);
      assert rest[i] in files;
      InMember(disk, files, rest[i], e);
    }
    if InLevel(disk, gone, e) {
      var i :| 0 <= i < |gone| && InFile(disk, gone[i], e);
      InMember(disk, files, gone[i], e);
    }
  }

  lemma {:induction false} LevelFrame(disk: Disk, disk': Disk, files: seq<FileMeta>)
    requires AllStored(disk, files) && Extends(disk, disk')
    ensures AllStored(disk', files)
    ensures forall e :: InLevel(disk', files, e) <==> InLevel(disk, files, e)
  {
    forall i | 0 <= i < |files| ensures Stored(disk', files[i]) { assert Stored(disk, files[i]); }
    forall e ensures InLevel(disk', files, e) <==> InLevel(disk, files, e) {
      forall i | 0 <= i < |files| ensures InFile(disk', files[i], e) <==> InFile(disk, files[i], e) {
        assert Stored(disk, files[i]);
      }
    }
  }

  lemma {:induction false} AllStoredMinus(disk: Disk, files: seq<FileMeta>, gone: seq<FileMeta>)
    requires AllStored(disk, files)
    ensures AllStored(disk, Minus(files, gone))
  {
    MinusIs(files, gone);
    forall i | 0 <= i < |Minus(files, gone)| ensures Stored(disk, Minus(files, gone)[i]) {
      assert Minus(files, gone)[i] in files;
    }
  }

  lemma {:induction false} UnionLevel(disk: Disk, files: seq<FileMeta>, a: seq<FileMeta>, b: seq<FileMeta>)
    requires AllStored(disk, a) && AllStored(disk, b)
    requires AreUnion(files, a, b)
    ensures AllStored(disk, files)
    ensures forall e :: InLevel(disk, files, e) <==> InLevel(disk, a, e) || InLevel(disk, b, e)
  {
    forall i | 0 <= i < |files| ensures Stored(disk, files[i]) { assert files[i] in a || files[i] in b; }
    forall e ensures InLevel(disk, files, e) <==> InLevel(disk, a, e) || InLevel(disk, b, e) {
      if InLevel(disk, files, e) {
        var i :| 0 <= i < |files| && InFile(disk, files[i], e);
        if files[i] in a { InMember(disk, a, files[i], e); } else { InMember(disk, b, files[i], e); }
      }
      if InLevel(disk, a, e) {
        var i :| 0 <= i < |a| && InFile(disk, a[i], e);
        InMember(disk, files, a[i], e);
      }
      if InLevel(disk, b, e) {
        var i :| 0 <= i < |b| && InFile(disk, b[i], e);
        InMember(disk, files, b[i], e);
      }
    }
  }

  lemma {:induction false} SetsAreContents(disk: Disk, v: Version)
    ensures All(Sets(disk, v)) == Contents(disk, v)
  {
    forall e ensures InSome(Sets(disk, v), e) <==> InVersion(disk, v, e) {
      if InVersion(disk, v, e) {
        var l :| 0 <= l < |v.levels| && InLevel(disk, v.levels[l], e);
        assert e in Sets(disk, v)[l];
      }
    }
  }

  ghost function PartsOf(disk: Disk, disk': Disk, v: Version, level: nat, in0: seq<FileMeta>, in1: seq<FileMeta>,
                         outs: seq<FileMeta>): Parts
    requires |v.levels| == KNumLevels && level + 1 < KNumLevels
  {
    Parts(LevelSet(disk, Minus(v.levels[level], in0)), LevelSet(disk, Minus(v.levels[level + 1], in1)),
          LevelSet(disk, in0), LevelSet(disk, in1), LevelSet(disk', outs))
  }

  // ----- one entry, one place -----

  /** Two different files of a level share no entry. */
  lemma {:induction false} FilesShareNothing(disk: Disk, v: Version, l: nat, i: nat, j: nat, a: Entry, b: Entry)
    requires Ok(disk, v) && l < KNumLevels && i < |v.levels[l]| && j < |v.levels[l]| && i != j
    requires InFile(disk, v.levels[l][i], a) && InFile(disk, v.levels[l][j], b) && a.key.user == b.key.user
    ensures a.key.sequence != b.key.sequence
  {
    var files := v.levels[l];
    assert AllStored(disk, files);
    InRange(disk, files[i], a);
    InRange(disk, files[j], b);
    if l == 0 {
      assert files[i].number != files[j].number;
      assert NewerFile(disk, files[i], files[j]) || NewerFile(disk, files[j], files[i]);
    } else {
      assert Disjoint(files);
      assert Precedes(files[i].largest, files[j].smallest) || Precedes(files[j].largest, files[i].smallest);
    }
  }

  lemma {:induction false} LevelIsUnique(disk: Disk, v: Version, l: nat)
    requires Ok(disk, v) && l < KNumLevels
    ensures Unique(LevelSet(disk, v.levels[l]))
  {
    var files := v.levels[l];
    forall a, b | InLevel(disk, files, a) && InLevel(disk, files, b) && a.key.user == b.key.user &&
    a.key.sequence == b.key.sequence
      ensures a == b
    {
      var i :| 0 <= i < |files| && InFile(disk, files[i], a);
      var j :| 0 <= j < |files| && InFile(disk, files[j], b);
      if i != j { FilesShareNothing(disk, v, l, i, j, a, b); }
      assert AllStored(disk, files) && Stored(disk, files[i]);
      SameTable(disk[files[i].number], a, b);
    }
  }

  lemma {:induction false} LevelsAreUnique(ls: Levels)
    requires Layered(ls) && forall l :: 0 <= l < |ls| ==> Unique(ls[l])
    ensures Unique(All(ls))
  {
  }

  lemma {:induction false} OkIsUnique(disk: Disk, v: Version)
    requires Ok(disk, v)
    ensures Unique(Contents(disk, v)) && Layered(Sets(disk, v))
  {
    forall l, m | 0 <= l < m < KNumLevels ensures NewerSet(Sets(disk, v)[l], Sets(disk, v)[m]) {
      assert Newer(disk, v.levels[l], v.levels[m]);
    }
    forall l | 0 <= l < KNumLevels ensures Unique(Sets(disk, v)[l]) { LevelIsUnique(disk, v, l); }
    LevelsAreUnique(Sets(disk, v));
    SetsAreContents(disk, v);
  }

  lemma {:induction false} SameTable(es: seq<Entry>, a: Entry, b: Entry)
    requires Versioned(es) && a in es && b in es && a.key.user == b.key.user && a.key.sequence == b.key.sequence
    ensures a == b
  {
    var i :| 0 <= i < |es| && es[i] == a;
    var j :| 0 <= j < |es| && es[j] == b;
  }

  lemma {:induction false} DistinctFilesShareNothing(disk: Disk, v: Version, l: nat, f: FileMeta, g: FileMeta, e: Entry)
    requires Ok(disk, v) && l < KNumLevels && f in v.levels[l] && g in v.levels[l] && f != g
    requires InFile(disk, f, e)
    ensures !InFile(disk, g, e)
  {
    var i :| 0 <= i < |v.levels[l]| && v.levels[l][i] == f;
    var j :| 0 <= j < |v.levels[l]| && v.levels[l][j] == g;
    if InFile(disk, g, e) { FilesShareNothing(disk, v, l, i, j, e, e); }
  }

  /** An entry is not both left behind and taken. */
  lemma {:induction false} NotBoth(disk: Disk, v: Version, l: nat, gone: seq<FileMeta>, e: Entry)
    requires Ok(disk, v) && l < KNumLevels && Subset(gone, v.levels[l])
    requires InLevel(disk, gone, e)
    ensures !InLevel(disk, Minus(v.levels[l], gone), e)
  {
    var rest := Minus(v.levels[l], gone);
    MinusIs(v.levels[l], gone);
    var m :| 0 <= m < |gone| && InFile(disk, gone[m], e);
    forall n | 0 <= n < |rest| ensures !InFile(disk, rest[n], e) {
      assert rest[n] in rest && gone[m] in gone;
      DistinctFilesShareNothing(disk, v, l, gone[m], rest[n], e);
    }
  }

  lemma {:induction false} EntrySplits(disk: Disk, v: Version, level: nat, in0: seq<FileMeta>, in1: seq<FileMeta>,
                                       e: Entry)
    requires Ok(disk, v) && level + 1 < KNumLevels
    requires Subset(in0, v.levels[level]) && Subset(in1, v.levels[level + 1])
    ensures !((InLevel(disk, in0, e) || InLevel(disk, in1, e)) &&
              (InLevel(disk, Minus(v.levels[level], in0), e) || InLevel(disk, Minus(v.levels[level + 1], in1), e)))
  {
    LevelSplit(disk, v.levels[level], in0, e);
    LevelSplit(disk, v.levels[level + 1], in1, e);
    if InLevel(disk, in0, e) { NotBoth(disk, v, level, in0, e); }
    if InLevel(disk, in1, e) { NotBoth(disk, v, level + 1, in1, e); }
    assert Newer(disk, v.levels[level], v.levels[level + 1]);
  }

  /** A compaction splits its two levels into parts. */
  lemma {:induction false} PartsSplit(disk: Disk, disk': Disk, v: Version, level: nat, in0: seq<FileMeta>,
                                      in1: seq<FileMeta>, outs: seq<FileMeta>, ss: nat)
    requires Ok(disk, v) && level + 1 < KNumLevels
    requires Subset(in0, v.levels[level]) && Subset(in1, v.levels[level + 1])
    requires Result(disk, disk', v, level, in0, in1, outs, ss)
    ensures Splits(Sets(disk, v), level, PartsOf(disk, disk', v, level, in0, in1, outs))
  {
    var sets, p := Sets(disk, v), PartsOf(disk, disk', v, level, in0, in1, outs);
    forall e ensures e in sets[level] <==> e in p.rest0 + p.in0 { LevelSplit(disk, v.levels[level], in0, e); }
    forall e ensures e in sets[level + 1] <==> e in p.rest1 + p.in1 { LevelSplit(disk, v.levels[level + 1], in1, e); }
    forall e ensures !(e in p.Rests() && e in p.Ins()) { EntrySplits(disk, v, level, in0, in1, e); }
    forall e | e in p.kept ensures e in p.Ins() { assert IsInput(disk, in0, in1, e); }
  }

  /** No file below has the key in its range, so no entry below has the key. */
  lemma {:induction false} BaseLevelHasNone(disk: Disk, v: Version, level: nat, k: UserKey, l: nat, x: Entry)
    requires Ok(disk, v) && BaseLevel(v, level, k) && level + 2 <= l < KNumLevels && InLevel(disk, v.levels[l], x)
    ensures x.key.user != k
  {
    var i :| 0 <= i < |v.levels[l]| && InFile(disk, v.levels[l][i], x);
    assert AllStored(disk, v.levels[l]);
    InRange(disk, v.levels[l][i], x);
    assert !HoldsKey(v.levels[l][i], k);
  }

  lemma {:induction false} DropIsSound(disk: Disk, disk': Disk, v: Version, level: nat, in0: seq<FileMeta>,
                                       in1: seq<FileMeta>, outs: seq<FileMeta>, ss: nat)
    requires Ok(disk, v) && level + 1 < KNumLevels
    requires Result(disk, disk', v, level, in0, in1, outs, ss)
    ensures SoundDrop(Sets(disk, v), level, PartsOf(disk, disk', v, level, in0, in1, outs), ss)
  {
    var sets, p := Sets(disk, v), PartsOf(disk, disk', v, level, in0, in1, outs);
    forall e | e in p.Ins() && e !in p.kept ensures HiddenIn(p, ss, e) || ObsoleteIn(sets, level, p, ss, e) {
      assert IsInput(disk, in0, in1, e) && Justified(disk, disk', v, level, in0, in1, outs, ss, e);
      if h :| IsInput(disk, in0, in1, h) && h.key.user == e.key.user && e.key.sequence < h.key.sequence <= ss {
        assert h in p.Ins();
      } else {
        forall l, x: Entry | level + 2 <= l < |sets| && x in sets[l] ensures x.key.user != e.key.user {
          BaseLevelHasNone(disk, v, level, e.key.user, l, x);
        }
      }
    }
  }

  /** The installed version, as sets. */
  lemma {:induction false} InstalledSets(disk: Disk, disk': Disk, v: Version, v': Version, level: nat,
                      in0: seq<FileMeta>, in1: seq<FileMeta>, outs: seq<FileMeta>, ss: nat)
    requires Ok(disk, v) && level + 1 < KNumLevels
    requires Result(disk, disk', v, level, in0, in1, outs, ss) && Installed(v, v', level, in0, in1, outs)
    ensures Sets(disk', v') == Next(Sets(disk, v), level, PartsOf(disk, disk', v, level, in0, in1, outs))
    ensures forall l :: 0 <= l < KNumLevels ==> AllStored(disk', v'.levels[l])
  {
    var p := PartsOf(disk, disk', v, level, in0, in1, outs);
    forall l | 0 <= l < KNumLevels
      ensures AllStored(disk', v'.levels[l])
      ensures LevelSet(disk', v'.levels[l]) == Next(Sets(disk, v), level, p)[l]
    {
      assert AllStored(disk, v.levels[l]);
      if l == level {
        AllStoredMinus(disk, v.levels[l], in0);
        LevelFrame(disk, disk', Minus(v.levels[l], in0));
      } else if l == level + 1 {
        AllStoredMinus(disk, v.levels[level + 1], in1);
        LevelFrame(disk, disk', Minus(v.levels[level + 1], in1));
        UnionLevel(disk', v'.levels[level + 1], Minus(v.levels[level + 1], in1), outs);
      } else {
        LevelFrame(disk, disk', v.levels[l]);
      }
    }
  }

  // ----- the invariant afterwards -----

  /** Files in order of their smallest key whose ranges do not meet are disjoint. */
  lemma {:induction false} SeparateIsDisjoint(disk: Disk, files: seq<FileMeta>)
    requires AllStored(disk, files) && BySmallest(files)
    requires forall i, j :: 0 <= i < j < |files| ==> Separate(files[i], files[j])
    ensures Disjoint(files)
  {
    forall i, j | 0 <= i < j < |files| ensures Precedes(files[i].largest, files[j].smallest) {
      assert Stored(disk, files[i]) && Stored(disk, files[j]);
      InRange(disk, files[i], disk[files[i].number][0]);
      InRange(disk, files[j], disk[files[j].number][0]);
      assert Separate(files[i], files[j]);
    }
  }

  predicate Separate(f: FileMeta, g: FileMeta) {
    Precedes(f.largest, g.smallest) || Precedes(g.largest, f.smallest)
  }

  /** An output whose entries come from the inputs is on the same side of a file as
      all of them. */
  lemma {:induction false} OutputIsApart(disk: Disk, disk': Disk, in0: seq<FileMeta>, in1: seq<FileMeta>, f: FileMeta,
                                         g: FileMeta)
    requires AllStored(disk, in0) && AllStored(disk, in1) && Stored(disk', f)
    requires Apart(g, in0 + in1)
    requires forall e :: InFile(disk', f, e) ==> IsInput(disk, in0, in1, e)
    ensures Separate(f, g)
  {
    var es, all := disk'[f.number], in0 + in1;
    var first, last := es[0], es[|es| - 1];
    assert InFile(disk', f, first) && InFile(disk', f, last);
    var a := InputFile(disk, in0, in1, first);
    var b := InputFile(disk, in0, in1, last);
  }

  lemma {:induction false} InputFile(disk: Disk, in0: seq<FileMeta>, in1: seq<FileMeta>, e: Entry) returns (i: nat)
    requires AllStored(disk, in0) && AllStored(disk, in1) && IsInput(disk, in0, in1, e)
    ensures i < |in0 + in1|
    ensures !Precedes(e.key, (in0 + in1)[i].smallest) && !Precedes((in0 + in1)[i].largest, e.key)
  {
    if InLevel(disk, in0, e) {
      i :| 0 <= i < |in0| && InFile(disk, in0[i], e);
      InRange(disk, in0[i], e);
    } else {
      var j :| 0 <= j < |in1| && InFile(disk, in1[j], e);
      InRange(disk, in1[j], e);
      i := |in0| + j;
    }
  }

  /** Replacing the inputs by outputs that hold some of their entries keeps the
      output level sorted and disjoint, wherever the outputs were cut. */
  lemma {:induction false} OutputLevelDisjoint(disk: Disk, disk': Disk, v: Version, v': Version, level: nat,
                            in0: seq<FileMeta>, in1: seq<FileMeta>, outs: seq<FileMeta>, ss: nat)
    requires Ok(disk, v) && level + 1 < KNumLevels
    requires Subset(in0, v.levels[level]) && Subset(in1, v.levels[level + 1]) && OneSided(v.levels[level + 1], in0, in1)
    requires Result(disk, disk', v, level, in0, in1, outs, ss) && Installed(v, v', level, in0, in1, outs)
    ensures Disjoint(v'.levels[level + 1])
  {
    var files, rest := v'.levels[level + 1], Minus(v.levels[level + 1], in1);
    MinusIs(v.levels[level + 1], in1);
    InstalledSets(disk, disk', v, v', level, in0, in1, outs, ss);
    SubsetStored(disk, v.levels[level], in0);
    SubsetStored(disk, v.levels[level + 1], in1);
    forall i, j | 0 <= i < j < |files| ensures Separate(files[i], files[j]) {
      assert files[i] in rest || files[i] in outs;
      assert files[j] in rest || files[j] in outs;
      if files[i] in rest && files[j] in rest {
        InDisjoint(rest, files[i], files[j]);
      } else if files[i] in outs && files[j] in outs {
        InDisjoint(outs, files[i], files[j]);
      } else if files[i] in outs {
        OutputVersusRest(disk, disk', v, level, in0, in1, outs, ss, files[i], files[j]);
      } else {
        OutputVersusRest(disk, disk', v, level, in0, in1, outs, ss, files[j], files[i]);
      }
    }
    SeparateIsDisjoint(disk', files);
  }

  lemma {:induction false} InDisjoint(files: seq<FileMeta>, f: FileMeta, g: FileMeta)
    requires Disjoint(files) && f in files && g in files && f != g
    ensures Separate(f, g)
  {
    var i :| 0 <= i < |files| && files[i] == f;
    var j :| 0 <= j < |files| && files[j] == g;
  }

  lemma {:induction false} SubsetStored(disk: Disk, files: seq<FileMeta>, xs: seq<FileMeta>)
    requires AllStored(disk, files) && Subset(xs, files)
    ensures AllStored(disk, xs)
  {
    forall i | 0 <= i < |xs| ensures Stored(disk, xs[i]) { assert xs[i] in files; }
  }

  lemma {:induction false} OutputVersusRest(disk: Disk, disk': Disk, v: Version, level: nat, in0: seq<FileMeta>,
                                            in1: seq<FileMeta>,
                         outs: seq<FileMeta>, ss: nat, f: FileMeta, g: FileMeta)
    requires level + 1 < KNumLevels == |v.levels|
    requires AllStored(disk, in0) && AllStored(disk, in1) && OneSided(v.levels[level + 1], in0, in1)
    requires Result(disk, disk', v, level, in0, in1, outs, ss)
    requires f in outs && g in v.levels[level + 1] && g !in in1
    ensures Separate(f, g)
  {
    var i :| 0 <= i < |v.levels[level + 1]| && v.levels[level + 1][i] == g;
    var n :| 0 <= n < |outs| && outs[n] == f;
    forall e | InFile(disk', f, e) ensures IsInput(disk, in0, in1, e) { InMember(disk', outs, f, e); }
    OutputIsApart(disk, disk', in0, in1, f, g);
  }

  /** Nothing left behind at the two levels is older than an input of its key. */
  ghost predicate NoOlderLeftBehind(disk: Disk, v: Version, level: nat, in0: seq<FileMeta>, in1: seq<FileMeta>)
    requires |v.levels| == KNumLevels && level + 1 < KNumLevels
  {
    NewerSet(LevelSet(disk, Minus(v.levels[level], in0)) + LevelSet(disk, Minus(v.levels[level + 1], in1)),
             LevelSet(disk, in0) + LevelSet(disk, in1))
  }

  /** A compaction: inputs that are still fit, a result, installed. */
  ghost predicate Compacted(disk: Disk, disk': Disk, v: Version, v': Version, level: nat,
                            in0: seq<FileMeta>, in1: seq<FileMeta>, outs: seq<FileMeta>, ss: nat)
    requires |v.levels| == KNumLevels
  {
    && level + 1 < KNumLevels
    && Fit(v.levels[level], v.levels[level + 1], in0, in1)
    && Result(disk, disk', v, level, in0, in1, outs, ss)
    && Installed(v, v', level, in0, in1, outs)
  }

  lemma {:induction false} AgePair(disk: Disk, disk': Disk, files: seq<FileMeta>, f: FileMeta, g: FileMeta)
    requires AllStored(disk, files) && NumberedByAge(disk, files) && Extends(disk, disk')
    requires f in files && g in files
    ensures f != g ==> f.number != g.number
    ensures f.number > g.number ==> NewerFile(disk', f, g)
  {
    var m :| 0 <= m < |files| && files[m] == f;
    var n :| 0 <= n < |files| && files[n] == g;
    assert Stored(disk, files[m]) && Stored(disk, files[n]);
    assert f.number > g.number ==> NewerFile(disk, files[m], files[n]);
  }

  lemma {:induction false} NumberedByAgeMinus(disk: Disk, disk': Disk, files: seq<FileMeta>, gone: seq<FileMeta>)
    requires AllStored(disk, files) && NumberedByAge(disk, files) && Extends(disk, disk')
    ensures NumberedByAge(disk', Minus(files, gone))
  {
    MinusIs(files, gone);
    var rest := Minus(files, gone);
    forall i, j | 0 <= i < |rest| && 0 <= j < |rest| && rest[i].number > rest[j].number
      ensures NewerFile(disk', rest[i], rest[j])
    {
      assert rest[i] in rest && rest[j] in rest;
      AgePair(disk, disk', files, rest[i], rest[j]);
    }
  }

  lemma {:induction false} OkFromSets(disk: Disk, v: Version)
    requires |v.levels| == KNumLevels
    requires forall l :: 0 <= l < KNumLevels ==> AllStored(disk, v.levels[l])
    requires NumberedByAge(disk, v.levels[0])
    requires forall l :: 1 <= l < KNumLevels ==> Disjoint(v.levels[l])
    requires Layered(Sets(disk, v))
    ensures Ok(disk, v)
  {
    forall l, m | 0 <= l < m < KNumLevels ensures Newer(disk, v.levels[l], v.levels[m]) {
      assert NewerSet(Sets(disk, v)[l], Sets(disk, v)[m]);
    }
  }

  /** The whole invariant holds again. */
  lemma {:induction false} CompactionKeepsOk(disk: Disk, disk': Disk, v: Version, v': Version, level: nat,
                          in0: seq<FileMeta>, in1: seq<FileMeta>, outs: seq<FileMeta>, ss: nat)
    requires Ok(disk, v) && Compacted(disk, disk', v, v', level, in0, in1, outs, ss)
    requires NoOlderLeftBehind(disk, v, level, in0, in1)
    ensures Ok(disk', v')
  {
    var p := PartsOf(disk, disk', v, level, in0, in1, outs);
    InstalledSets(disk, disk', v, v', level, in0, in1, outs, ss);
    OutputLevelDisjoint(disk, disk', v, v', level, in0, in1, outs, ss);
    MinusIs(v.levels[level], in0);
    OkIsUnique(disk, v);
    PartsSplit(disk, disk', v, level, in0, in1, outs, ss);
    NextIsLayered(Sets(disk, v), level, p);
    LevelZeroAfter(disk, disk', v, v', level, in0, in1, outs);
    OkFromSets(disk', v');
  }

  lemma {:induction false} LevelZeroAfter(disk: Disk, disk': Disk, v: Version, v': Version, level: nat,
                       in0: seq<FileMeta>, in1: seq<FileMeta>, outs: seq<FileMeta>)
    requires Ok(disk, v) && Extends(disk, disk') && level + 1 < KNumLevels && Installed(v, v', level, in0, in1, outs)
    ensures NumberedByAge(disk', v'.levels[0])
  {
    assert AllStored(disk, v.levels[0]);
    NumberedByAgeMinus(disk, disk', v.levels[0], in0);
    NumberedByAgeMinus(disk, disk', v.levels[0], []);
    MinusNothing(v.levels[0]);
  }

  lemma {:induction false} MinusNothing(files: seq<FileMeta>)
    ensures Minus(files, []) == files
  {
    if files != [] { MinusNothing(files[..|files| - 1]); }
  }

  /** A compaction keeps every read at a snapshot from `ss` on, as long as nothing
      left behind is older than an input of its key. */
  lemma {:induction false} CompactionKeepsReads(disk: Disk, disk': Disk, v: Version, v': Version, level: nat,
                             in0: seq<FileMeta>, in1: seq<FileMeta>, outs: seq<FileMeta>, ss: nat)
    requires Ok(disk, v) && Compacted(disk, disk', v, v', level, in0, in1, outs, ss)
    requires NoOlderLeftBehind(disk, v, level, in0, in1)
    ensures SameReads(Contents(disk, v), Contents(disk', v'), ss) && SameFirst(Sets(disk, v), Sets(disk', v'), ss)
  {
    NewerRestsExposeNothing(Sets(disk, v), PartsOf(disk, disk', v, level, in0, in1, outs), ss);
    CompactionReadsExactly(disk, disk', v, v', level, in0, in1, outs, ss);
    CompactionFirstExactly(disk, disk', v, v', level, in0, in1, outs, ss);
    NothingOvertakes(disk, v, level, in0, in1, ss);
  }

  lemma {:induction false} NothingOvertakes(disk: Disk, v: Version, level: nat, in0: seq<FileMeta>, in1: seq<FileMeta>,
                                            ss: nat)
    requires |v.levels| == KNumLevels && level + 1 < KNumLevels && NoOlderLeftBehind(disk, v, level, in0, in1)
    ensures forall e, x :: !Overtakes(disk, v, level, in0, ss, e, x)
  {
    hide InLevel, InVersion;
  }

  /** Over the set of all entries, reads are kept exactly when no dropped deletion exposes
      a value left behind. */
  lemma {:induction false} CompactionReadsExactly(disk: Disk, disk': Disk, v: Version, v': Version, level: nat,
                               in0: seq<FileMeta>, in1: seq<FileMeta>, outs: seq<FileMeta>, ss: nat)
    requires Ok(disk, v) && Compacted(disk, disk', v, v', level, in0, in1, outs, ss)
    ensures SameReads(Contents(disk, v), Contents(disk', v'), ss) <==>
            forall d, x :: !Exposes(Sets(disk, v), PartsOf(disk, disk', v, level, in0, in1, outs), ss, d, x)
  {
    OkIsUnique(disk, v);
    SetsAreContents(disk, v);
    SetsAreContents(disk', v');
    PartsSplit(disk, disk', v, level, in0, in1, outs, ss);
    DropIsSound(disk, disk', v, level, in0, in1, outs, ss);
    InstalledSets(disk, disk', v, v', level, in0, in1, outs, ss);
    ReadsKeptExactly(Sets(disk, v), level, PartsOf(disk, disk', v, level, in0, in1, outs), ss);
  }

  /** The drop decisions were made against `base`. They stand in a later version whose
      deeper levels have no new file around a key of the inputs. */
  ghost predicate StillBase(disk: Disk, base: Version, v: Version, level: nat, in0: seq<FileMeta>, in1: seq<FileMeta>) {
    forall e :: IsInput(disk, in0, in1, e) && BaseLevel(base, level, e.key.user) ==> BaseLevel(v, level, e.key.user)
  }

  lemma {:induction false} ResultStands(disk: Disk, disk': Disk, base: Version, v: Version, level: nat,
                                        in0: seq<FileMeta>, in1: seq<FileMeta>, outs: seq<FileMeta>, ss: nat)
    requires Result(disk, disk', base, level, in0, in1, outs, ss) && StillBase(disk, base, v, level, in0, in1)
    ensures Result(disk, disk', v, level, in0, in1, outs, ss)
  {
    hide BaseLevel;
    forall e | IsInput(disk, in0, in1, e) && !InLevel(disk', outs, e)
      ensures Justified(disk, disk', v, level, in0, in1, outs, ss, e)
    {
      assert Justified(disk, disk', base, level, in0, in1, outs, ss, e);
    }
  }

  // ----- the same condition, before the work -----

  /** Known before the work starts: `d` is an input that rule (B) will drop, no other
      version of its key hides it from the oldest reader, and `x`, a value of the key,
      stays behind right below it. */
  ghost predicate Uncovers(disk: Disk, v: Version, level: nat, in0: seq<FileMeta>, in1: seq<FileMeta>, ss: nat,
                           d: Entry, x: Entry)
    requires |v.levels| == KNumLevels && level + 1 < KNumLevels
  {
    && IsInput(disk, in0, in1, d) && Obsolete(v, level, d, ss)
    && IsLeft(disk, v, level, in0, in1, x) && x.key.kind.Value?
    && x.key.user == d.key.user && x.key.sequence < d.key.sequence
    && NoneBetween(disk, v, d.key.user, d.key.sequence, ss)
    && forall y :: IsLeft(disk, v, level, in0, in1, y) && y.key.user == d.key.user ==>
         !(x.key.sequence < y.key.sequence < d.key.sequence)
  }

  /** `x` is at the two levels and not an input. */
  ghost predicate IsLeft(disk: Disk, v: Version, level: nat, in0: seq<FileMeta>, in1: seq<FileMeta>, x: Entry)
    requires |v.levels| == KNumLevels && level + 1 < KNumLevels
  {
    InLevel(disk, Minus(v.levels[level], in0), x) || InLevel(disk, Minus(v.levels[level + 1], in1), x)
  }

  ghost predicate NoneBetween(disk: Disk, v: Version, k: UserKey, low: nat, high: nat) {
    forall y :: InVersion(disk, v, y) && y.key.user == k ==> !(low < y.key.sequence <= high)
  }

  lemma {:induction false} InputIsThere(disk: Disk, v: Version, level: nat, in0: seq<FileMeta>, in1: seq<FileMeta>,
                                        e: Entry)
    requires |v.levels| == KNumLevels && level + 1 < KNumLevels
    requires Subset(in0, v.levels[level]) && Subset(in1, v.levels[level + 1]) && IsInput(disk, in0, in1, e)
    ensures InVersion(disk, v, e)
  {
    LevelSplit(disk, v.levels[level], in0, e);
    LevelSplit(disk, v.levels[level + 1], in1, e);
  }

  /** Nothing newer up to `ss` hides it, so only rule (B) can drop it. */
  lemma {:induction false} OnlyRuleB(disk: Disk, v: Version, level: nat, in0: seq<FileMeta>, in1: seq<FileMeta>,
                                     stream: seq<Entry>, ss: nat, i: nat)
    requires |v.levels| == KNumLevels && level + 1 < KNumLevels
    requires Subset(in0, v.levels[level]) && Subset(in1, v.levels[level + 1]) && Merged(disk, in0, in1, stream)
    requires i < |stream| && NoneBetween(disk, v, stream[i].key.user, stream[i].key.sequence, ss)
    ensures Dropped(v, level, stream, i, ss) <==> Obsolete(v, level, stream[i], ss)
  {
    if Hidden(stream, i, ss) {
      var j :| 0 <= j < i && stream[j].key.user == stream[i].key.user && stream[j].key.sequence <= ss;
      assert stream[j] in stream && Precedes(stream[j].key, stream[i].key);
      InputIsThere(disk, v, level, in0, in1, stream[j]);
    }
  }

  lemma {:induction false} WrittenAre(disk: Disk, next: nat, o: Outputs, es: seq<Entry>, e: Entry)
    requires Wrote(disk, next, o, es) && o.builder == []
    ensures InLevel(o.disk, o.outs, e) <==> e in es
  {
    assert Concat(o.disk, o.outs) == es;
    forall i | 0 <= i < |o.outs| ensures o.outs[i].number in o.disk { assert Describes(o.disk, o.outs[i]); }
    ConcatMembers(o.disk, o.outs);
  }

  lemma {:induction false} OnePlace(es: seq<Entry>, i: nat, j: nat)
    requires Versioned(es) && i < |es| && j < |es| && es[i] == es[j]
    ensures i == j
  {
  }

  lemma {:induction false} NotWrittenExactly(disk: Disk, next: nat, v: Version, level: nat, in0: seq<FileMeta>,
                                             in1: seq<FileMeta>,
                                             stream: seq<Entry>, o: Outputs, ss: nat, d: Entry)
    requires |v.levels| == KNumLevels && level + 1 < KNumLevels
    requires Subset(in0, v.levels[level]) && Subset(in1, v.levels[level + 1]) && Merged(disk, in0, in1, stream)
    requires Wrote(disk, next, o, Survivors(v, level, stream, |stream|, ss)) && o.builder == []
    requires IsInput(disk, in0, in1, d) && NoneBetween(disk, v, d.key.user, d.key.sequence, ss)
    ensures !InLevel(o.disk, o.outs, d) <==> Obsolete(v, level, d, ss)
  {
    hide Wrote, Obsolete, Dropped, NoneBetween;
    WrittenAre(disk, next, o, Survivors(v, level, stream, |stream|, ss), d);
    SurvivorsAre(v, level, stream, |stream|, ss);
    var i :| 0 <= i < |stream| && stream[i] == d;
    OnlyRuleB(disk, v, level, in0, in1, stream, ss, i);
    forall j | 0 <= j < |stream| && stream[j] == d ensures j == i { OnePlace(stream, i, j); }
  }

  /** Seen from the result or from the inputs, the same values come back. */
  lemma {:induction false} UncoversIsExposes(disk: Disk, next: nat, v: Version, level: nat, in0: seq<FileMeta>,
                                             in1: seq<FileMeta>,
                                             stream: seq<Entry>, o: Outputs, ss: nat, d: Entry, x: Entry)
    requires |v.levels| == KNumLevels && level + 1 < KNumLevels
    requires Subset(in0, v.levels[level]) && Subset(in1, v.levels[level + 1]) && Merged(disk, in0, in1, stream)
    requires Wrote(disk, next, o, Survivors(v, level, stream, |stream|, ss)) && o.builder == []
    ensures Uncovers(disk, v, level, in0, in1, ss, d, x) <==>
            Exposes(Sets(disk, v), PartsOf(disk, o.disk, v, level, in0, in1, o.outs), ss, d, x)
  {
    hide Wrote, Merged, Survivors, InLevel, InVersion, BaseLevel, Sets;
    if IsInput(disk, in0, in1, d) && NoneBetween(disk, v, d.key.user, d.key.sequence, ss) {
      NotWrittenExactly(disk, next, v, level, in0, in1, stream, o, ss, d);
    }
    SetsAreContents(disk, v);
  }

  /** Known before the work starts: `e` is an input from the upper level, `x` an older
      version of its key that stays there right behind it, and no other version hides `e`
      from the oldest reader. Afterwards `x` is in front of `e`. */
  ghost predicate Overtakes(disk: Disk, v: Version, level: nat, in0: seq<FileMeta>, ss: nat, e: Entry, x: Entry)
    requires |v.levels| == KNumLevels && level + 1 < KNumLevels
  {
    && InLevel(disk, in0, e) && InLevel(disk, Minus(v.levels[level], in0), x)
    && x.key.user == e.key.user && x.key.sequence < e.key.sequence
    && NoneBetween(disk, v, e.key.user, e.key.sequence, ss)
    && (forall y :: InLevel(disk, Minus(v.levels[level], in0), y) && y.key.user == e.key.user ==>
          !(x.key.sequence < y.key.sequence < e.key.sequence))
    && AnswerOf(e) != AnswerOf(x)
  }

  lemma {:induction false} OvertakesIsIn(disk: Disk, disk': Disk, v: Version, level: nat, in0: seq<FileMeta>,
                                         in1: seq<FileMeta>, outs: seq<FileMeta>, ss: nat, e: Entry, x: Entry)
    requires |v.levels| == KNumLevels && level + 1 < KNumLevels
    ensures Overtakes(disk, v, level, in0, ss, e, x) <==>
            OvertakesIn(Sets(disk, v), PartsOf(disk, disk', v, level, in0, in1, outs), ss, e, x)
  {
    hide InLevel, InVersion, Sets;
    SetsAreContents(disk, v);
  }

  /** Whatever was left behind, each level for itself is in order again, so that the
      levels can be read. */
  lemma {:induction false} CompactionKeepsLevels(disk: Disk, disk': Disk, v: Version, v': Version, level: nat,
                                                 in0: seq<FileMeta>, in1: seq<FileMeta>, outs: seq<FileMeta>, ss: nat)
    requires Ok(disk, v) && Compacted(disk, disk', v, v', level, in0, in1, outs, ss)
    ensures LevelsOk(disk', v')
  {
    InstalledSets(disk, disk', v, v', level, in0, in1, outs, ss);
    OutputLevelDisjoint(disk, disk', v, v', level, in0, in1, outs, ss);
    MinusIs(v.levels[level], in0);
    LevelZeroAfter(disk, disk', v, v', level, in0, in1, outs);
  }

  /** What Version::Get reads in the installed version: for any result that drops only
      hidden versions and obsolete deletions. */
  lemma {:induction false} CompactionFirstExactly(disk: Disk, disk': Disk, v: Version, v': Version, level: nat,
                                                  in0: seq<FileMeta>, in1: seq<FileMeta>, outs: seq<FileMeta>, ss: nat)
    requires Ok(disk, v) && Compacted(disk, disk', v, v', level, in0, in1, outs, ss)
    ensures |v.levels| == KNumLevels
    ensures SameFirst(Sets(disk, v), Sets(disk', v'), ss) <==>
            && (forall d, x :: !Exposes(Sets(disk, v), PartsOf(disk, disk', v, level, in0, in1, outs), ss, d, x))
            && (forall e, x :: !Overtakes(disk, v, level, in0, ss, e, x))
  {
    OkIsUnique(disk, v);
    SetsAreContents(disk, v);
    PartsSplit(disk, disk', v, level, in0, in1, outs, ss);
    DropIsSound(disk, disk', v, level, in0, in1, outs, ss);
    InstalledSets(disk, disk', v, v', level, in0, in1, outs, ss);
    hide Sets, SameFirst, Exposes, OvertakesIn, Overtakes, Splits, SoundDrop, Result, Installed, Fit, PartsOf;
    var p := PartsOf(disk, disk', v, level, in0, in1, outs);
    FirstKeptExactly(Sets(disk, v), level, p, ss);
    forall e, x ensures Overtakes(disk, v, level, in0, ss, e, x) <==> OvertakesIn(Sets(disk, v), p, ss, e, x) {
      OvertakesIsIn(disk, disk', v, level, in0, in1, outs, ss, e, x);
    }
  }

  /** A trivial move keeps every read exactly when what it moves is not overtaken. */
  lemma {:induction false} MoveReadsExactly(disk: Disk, v: Version, v': Version, level: nat, f: FileMeta)
    requires Ok(disk, v) && level + 1 < KNumLevels && Fit(v.levels[level], v.levels[level + 1], [f], [])
    requires Installed(v, v', level, [f], [], [f])
    ensures LevelsOk(disk, v')
    ensures SameFirst(Sets(disk, v), Sets(disk, v'), 0) <==> forall e, x :: !Overtakes(disk, v, level, [f], 0, e, x)
  {
    var files := v.levels[level];
    assert [f][0] in files;
    var i :| 0 <= i < |files| && files[i] == f;
    assert AllStored(disk, files) && Stored(disk, files[i]);
    MoveGivesResult(disk, v, level, f, 0);
    CompactionKeepsLevels(disk, disk, v, v', level, [f], [], [f], 0);
    CompactionFirstExactly(disk, disk, v, v', level, [f], [], [f], 0);
    MoveExposesNothing(disk, v, level, f);
  }

  lemma {:induction false} MoveExposesNothing(disk: Disk, v: Version, level: nat, f: FileMeta)
    requires |v.levels| == KNumLevels && level + 1 < KNumLevels
    ensures forall d, x :: !Exposes(Sets(disk, v), PartsOf(disk, disk, v, level, [f], [], [f]), 0, d, x)
  {
    hide Sets;
  }

  /** What DoCompactionWork writes and LogAndApply installs: Version::Get answers every read
      from `ss` on as before exactly when the inputs uncover nothing and none of them is
      overtaken. */
  lemma {:induction false} WorkReadsExactly(disk: Disk, next: nat, v: Version, v': Version, level: nat,
                                            in0: seq<FileMeta>, in1: seq<FileMeta>,
                                            stream: seq<Entry>, o: Outputs, ss: nat)
    requires Ok(disk, v) && level + 1 < KNumLevels && Chosen(level, v.levels[level], v.levels[level + 1], in0, in1)
    requires Merged(disk, in0, in1, stream)
    requires Wrote(disk, next, o, Survivors(v, level, stream, |stream|, ss)) && o.builder == []
    requires Installed(v, v', level, in0, in1, o.outs)
    ensures LevelsOk(o.disk, v')
    ensures SameFirst(Sets(disk, v), Sets(o.disk, v'), ss) <==>
            && (forall d, x :: !Uncovers(disk, v, level, in0, in1, ss, d, x))
            && (forall e, x :: !Overtakes(disk, v, level, in0, ss, e, x))
  {
    assert |v.levels| == KNumLevels;
    hide Wrote, Merged, Survivors, Uncovers, Overtakes, Exposes, SameFirst, Installed, Ok, LevelsOk, Result;
    WorkGivesResult(disk, next, v, level, in0, in1, stream, o, ss);
    CompactionKeepsLevels(disk, o.disk, v, v', level, in0, in1, o.outs, ss);
    CompactionFirstExactly(disk, o.disk, v, v', level, in0, in1, o.outs, ss);
    forall d, x ensures Uncovers(disk, v, level, in0, in1, ss, d, x) <==>
                        Exposes(Sets(disk, v), PartsOf(disk, o.disk, v, level, in0, in1, o.outs), ss, d, x)
    {
      UncoversIsExposes(disk, next, v, level, in0, in1, stream, o, ss, d, x);
    }
  }
}

/** A memtable flushed between the inputs of a running compaction: when the level the
    outputs go to stays disjoint, and what a read loses when it does not. */
module GapFlushes {
  import opened Keys
  import opened Versions
  import opened Inputs
  import opened Compactions
  import opened LevelSets
  import opened CompactionSafety
  import opened Flushes
  import opened Interleavings
  import CompactionRuns

  /** A compaction of `in0` and `in1` started at `v`, and table `f` was flushed to the level
      the outputs will go to. File numbers go on from `next`. */
  datatype Race = Race(disk: Disk, v: Version, level: nat, in0: seq<FileMeta>, in1: seq<FileMeta>, stream: seq<Entry>,
                       ss: nat, disk': Disk, v': Version, f: FileMeta, es: seq<Entry>, next: nat)

  ghost predicate Running(r: Race) {
    && Ok(r.disk, r.v) && r.level + 1 < KNumLevels
    && Chosen(r.level, r.v.levels[r.level], r.v.levels[r.level + 1], r.in0, r.in1)
    && Merged(r.disk, r.in0, r.in1, r.stream)
    && Flushed(r.disk, r.disk', r.v, r.v', r.level + 1, r.f, r.es) && Allowed(r.v, r.level + 1, r.f)
    && NumbersBelow(r.disk', r.next)
  }

  /** What DoCompactionWork writes. */
  ghost function Written(r: Race): seq<Entry> { Survivors(r.v, r.level, r.stream, |r.stream|, r.ss) }

  ghost predicate Cut(r: Race, o: Outputs) { Wrote(r.disk', r.next, o, Written(r)) && o.builder == [] }

  /** The compaction ends with outputs `o` and installs `v2`. */
  ghost predicate Ends(r: Race, o: Outputs, v2: Version)
    requires Running(r)
  {
    Cut(r, o) && Installed(r.v', v2, r.level, r.in0, r.in1, o.outs)
  }

  ghost predicate AllSeparate(files: seq<FileMeta>, f: FileMeta) {
    forall i :: 0 <= i < |files| ==> Separate(files[i], f)
  }

  /** All of `es` on one side of `f`. */
  ghost predicate OneSide(es: seq<Entry>, f: FileMeta) {
    || (forall i :: 0 <= i < |es| ==> Precedes(es[i].key, f.smallest))
    || (forall i :: 0 <= i < |es| ==> Precedes(f.largest, es[i].key))
  }

  // ----- the files of the output level -----

  lemma {:induction false} RaceParts(r: Race)
    requires Running(r)
    ensures |r.v.levels| == KNumLevels && |r.v'.levels| == KNumLevels && r.disk' == r.disk[r.f.number := r.es]
    ensures AllStored(r.disk, r.in0) && AllStored(r.disk, r.in1) && Stored(r.disk', r.f) && r.f.number !in r.disk
    ensures Disjoint(r.v.levels[r.level + 1]) && BySmallest(r.v'.levels[r.level + 1])
    ensures OneSided(r.v.levels[r.level + 1], r.in0, r.in1) && Subset(r.in1, r.v.levels[r.level + 1])
  {
    SubsetStored(r.disk, r.v.levels[r.level], r.in0);
    SubsetStored(r.disk, r.v.levels[r.level + 1], r.in1);
  }

  /** What stays at the output level is what did before the flush, and the new table. */
  lemma {:induction false} StaysOrNew(r: Race, g: FileMeta)
    requires Running(r) && |r.v'.levels| == KNumLevels
    ensures g in Minus(r.v'.levels[r.level + 1], r.in1) <==> g == r.f || g in Minus(r.v.levels[r.level + 1], r.in1)
    ensures g in Minus(r.v.levels[r.level + 1], r.in1) ==> Stored(r.disk, g) && g != r.f && Apart(g, r.in0 + r.in1)
  {
    var l, files := r.level + 1, r.v.levels[r.level + 1];
    hide Running;
    RaceIs(r);
    RaceParts(r);
    MinusIs(files, r.in1);
    MinusIs(r.v'.levels[l], r.in1);
    OldOrNew(r.disk, r.disk', r.v, r.v', l, r.f, r.es, l, g);
    forall i | 0 <= i < |r.in1| ensures r.in1[i] != r.f { assert Stored(r.disk, r.in1[i]); }
    if g in files && g !in r.in1 {
      NewNumber(r.disk, r.disk', r.v, r.v', l, r.f, r.es, l, g);
      var i :| 0 <= i < |files| && files[i] == g;
    }
  }

  lemma {:induction false} RaceIs(r: Race)
    requires Running(r)
    ensures Ok(r.disk, r.v) && r.level + 1 < KNumLevels
    ensures Flushed(r.disk, r.disk', r.v, r.v', r.level + 1, r.f, r.es)
  {
  }

  /** The outputs are sorted tables of input entries, under new numbers. */
  lemma {:induction false} OutputsAre(r: Race, o: Outputs)
    requires Running(r) && Cut(r, o)
    ensures AllStored(o.disk, o.outs) && Disjoint(o.outs) && Extends(r.disk', o.disk)
    ensures forall g, e :: g in o.outs && InFile(o.disk, g, e) ==> e in Written(r) && IsInput(r.disk, r.in0, r.in1, e)
    ensures forall g :: g in o.outs ==> g.number >= r.next
  {
    hide Ok, Chosen, Flushed, Allowed, Installed, InLevel;
    SurvivorsAre(r.v, r.level, r.stream, |r.stream|, r.ss);
    assert Concat(o.disk, o.outs) == Written(r);
    forall i | 0 <= i < |o.outs| ensures o.outs[i].number in o.disk { assert Describes(o.disk, o.outs[i]); }
    ConcatStored(o.disk, o.outs);
    ConcatMembers(o.disk, o.outs);
    forall g, e | g in o.outs && InFile(o.disk, g, e) ensures e in Written(r) && IsInput(r.disk, r.in0, r.in1, e) {
      InMember(o.disk, o.outs, g, e);
      var i :| 0 <= i < |r.stream| && r.stream[i] == e && !Dropped(r.v, r.level, r.stream, i, r.ss);
    }
  }

  /** Apart from the new table, the files of the installed level are separate. */
  lemma {:induction false} OthersSeparate(r: Race, o: Outputs, g: FileMeta, h: FileMeta)
    requires Running(r) && Cut(r, o) && g != h
    requires g in Minus(r.v.levels[r.level + 1], r.in1) || g in o.outs
    requires h in Minus(r.v.levels[r.level + 1], r.in1) || h in o.outs
    ensures Separate(g, h)
  {
    var rest := Minus(r.v.levels[r.level + 1], r.in1);
    RaceParts(r);
    OutputsAre(r, o);
    hide Running, Cut, Apart;
    MinusIs(r.v.levels[r.level + 1], r.in1);
    if g in rest && h in rest {
      InDisjoint(rest, g, h);
    } else if g in o.outs && h in o.outs {
      InDisjoint(o.outs, g, h);
    } else if g in o.outs {
      OutputBeside(r, o, g, h);
    } else {
      OutputBeside(r, o, h, g);
    }
  }

  lemma {:induction false} OutputBeside(r: Race, o: Outputs, g: FileMeta, h: FileMeta)
    requires Running(r) && Cut(r, o) && g in o.outs && h in Minus(r.v.levels[r.level + 1], r.in1)
    ensures Separate(g, h)
  {
    RaceParts(r);
    OutputsAre(r, o);
    StaysOrNew(r, h);
    hide *;
    MemberStored(o.disk, o.outs, g);
    OutputIsApart(r.disk, o.disk, r.in0, r.in1, g, h);
  }

  lemma {:induction false} MemberStored(disk: Disk, files: seq<FileMeta>, g: FileMeta)
    requires AllStored(disk, files) && g in files
    ensures Stored(disk, g)
  {
    var i :| 0 <= i < |files| && files[i] == g;
  }

  /** The files of the installed level: those that stay, the outputs and the new table. */
  lemma {:induction false} EndFiles(r: Race, o: Outputs, v2: Version, g: FileMeta)
    requires Running(r) && Ends(r, o, v2)
    ensures |v2.levels| == KNumLevels && BySmallest(v2.levels[r.level + 1])
    ensures g in v2.levels[r.level + 1] <==> g == r.f || g in Minus(r.v.levels[r.level + 1], r.in1) || g in o.outs
    ensures g in v2.levels[r.level + 1] ==> Stored(o.disk, g)
    ensures r.f !in o.outs
  {
    RaceParts(r);
    OutputsAre(r, o);
    StaysOrNew(r, g);
    EndIs(r, o, v2);
    hide *;
    NumberBelow(r);
    if g in o.outs {
      MemberStored(o.disk, o.outs, g);
    } else if g in v2.levels[r.level + 1] {
      StillStored(r.disk, r.disk', r.f, r.es, o.disk, g);
    }
  }

  lemma {:induction false} EndIs(r: Race, o: Outputs, v2: Version)
    requires Running(r) && Ends(r, o, v2)
    ensures |v2.levels| == KNumLevels && BySmallest(v2.levels[r.level + 1])
    ensures AreUnion(v2.levels[r.level + 1], Minus(r.v'.levels[r.level + 1], r.in1), o.outs)
    ensures forall g :: g in v2.levels[r.level + 1] <==> g in Minus(r.v'.levels[r.level + 1], r.in1) || g in o.outs
  {
  }

  lemma {:induction false} NumberBelow(r: Race)
    requires Running(r)
    ensures r.f.number < r.next
  {
    RaceParts(r);
  }

  lemma {:induction false} StillStored(disk: Disk, disk': Disk, f: FileMeta, es: seq<Entry>, after: Disk, g: FileMeta)
    requires disk' == disk[f.number := es] && f.number !in disk && Extends(disk', after)
    requires Stored(disk, g) || (g == f && Stored(disk', g))
    ensures Stored(after, g)
  {
    assert g.number in disk' && disk'[g.number] == if g == f then disk'[g.number] else disk[g.number];
  }

  /** Whatever the cuts, the installed level is disjoint exactly when no output runs into
      the new table. */
  lemma {:induction false} InstalledExactly(r: Race, o: Outputs, v2: Version)
    requires Running(r) && Ends(r, o, v2)
    ensures |v2.levels| == KNumLevels && (Disjoint(v2.levels[r.level + 1]) <==> AllSeparate(o.outs, r.f))
  {
    EndFiles(r, o, v2, r.f);
    assert Cut(r, o);
    var files := v2.levels[r.level + 1];
    hide *;
    if Disjoint(files) { SeparateFromNew(r, o, v2); }
    if AllSeparate(o.outs, r.f) {
      forall i, j | 0 <= i < j < |files| ensures Separate(files[i], files[j]) {
        EndFiles(r, o, v2, files[i]);
        EndFiles(r, o, v2, files[j]);
        Differ(files, i, j);
        PairSeparate(r, o, files[i], files[j]);
      }
      forall i | 0 <= i < |files| ensures Stored(o.disk, files[i]) { EndFiles(r, o, v2, files[i]); }
      AllStoredFold(o.disk, files);
      SeparateIsDisjoint(o.disk, files);
    }
  }

  lemma {:induction false} AllStoredFold(disk: Disk, files: seq<FileMeta>)
    requires forall i :: 0 <= i < |files| ==> Stored(disk, files[i])
    ensures AllStored(disk, files)
  {
  }

  lemma {:induction false} Differ(files: seq<FileMeta>, i: nat, j: nat)
    requires BySmallest(files) && i < j < |files|
    ensures files[i] != files[j]
  {
  }

  lemma {:induction false} SeparateFromNew(r: Race, o: Outputs, v2: Version)
    requires Running(r) && Ends(r, o, v2) && |v2.levels| == KNumLevels && Disjoint(v2.levels[r.level + 1])
    ensures AllSeparate(o.outs, r.f)
  {
    RaceIs(r);
    hide Running, Ends, Disjoint, Separate;
    var files := v2.levels[r.level + 1];
    EndFiles(r, o, v2, r.f);
    forall i | 0 <= i < |o.outs| ensures Separate(o.outs[i], r.f) {
      EndFiles(r, o, v2, o.outs[i]);
      assert o.outs[i] in o.outs;
      InDisjoint(files, o.outs[i], r.f);
    }
  }

  lemma {:induction false} PairSeparate(r: Race, o: Outputs, g: FileMeta, h: FileMeta)
    requires Running(r) && Cut(r, o) && AllSeparate(o.outs, r.f) && g != h
    requires g == r.f || g in Minus(r.v.levels[r.level + 1], r.in1) || g in o.outs
    requires h == r.f || h in Minus(r.v.levels[r.level + 1], r.in1) || h in o.outs
    ensures Separate(g, h)
  {
    hide Running, Cut;
    if g == r.f {
      FromNew(r, o, h);
    } else if h == r.f {
      FromNew(r, o, g);
    } else {
      OthersSeparate(r, o, g, h);
    }
  }

  /** A level that may take the new table has no file around it. */
  lemma {:induction false} FromNew(r: Race, o: Outputs, g: FileMeta)
    requires Running(r) && AllSeparate(o.outs, r.f)
    requires g in Minus(r.v.levels[r.level + 1], r.in1) || g in o.outs
    ensures Separate(g, r.f) && Separate(r.f, g)
  {
    if g in o.outs {
      var i :| 0 <= i < |o.outs| && o.outs[i] == g;
    } else {
      MinusIs(r.v.levels[r.level + 1], r.in1);
      NoneAround(r.disk, r.disk', r.v, r.v', r.level + 1, r.f, r.es, r.level + 1, g);
    }
  }

  // ----- all cuts -----

  /** However the outputs are cut, the installed level is disjoint. */
  ghost predicate SafeCuts(r: Race)
    requires Running(r)
  {
    forall o, v2 :: Ends(r, o, v2) && |v2.levels| == KNumLevels ==> Disjoint(v2.levels[r.level + 1])
  }

  lemma {:induction false} CutIsSeparate(r: Race, o: Outputs)
    requires Running(r) && Cut(r, o) && OneSide(Written(r), r.f)
    ensures AllSeparate(o.outs, r.f)
  {
    OutputsAre(r, o);
    hide Running, Cut, Written;
    forall i | 0 <= i < |o.outs| ensures Separate(o.outs[i], r.f) {
      assert Stored(o.disk, o.outs[i]) && o.outs[i] in o.outs;
      var t := o.disk[o.outs[i].number];
      assert InFile(o.disk, o.outs[i], t[0]) && InFile(o.disk, o.outs[i], t[|t| - 1]);
      assert t[0] in Written(r) && t[|t| - 1] in Written(r);
    }
  }

  /** All that is written, in one table. */
  function OneTable(disk: Disk, next: nat, es: seq<Entry>): Outputs
    requires es != []
  {
    Outputs([FileMeta(next, 0, es[0].key, es[|es| - 1].key)], disk[next := es], next + 1, next, [])
  }

  lemma {:induction false} OneTableWrote(disk: Disk, next: nat, es: seq<Entry>)
    requires es != [] && NumbersBelow(disk, next)
    ensures Wrote(disk, next, OneTable(disk, next, es), es)
  {
    var o := OneTable(disk, next, es);
    assert o.outs[..0] == [];
    assert Concat(o.disk, o.outs) == [] + es;
  }

  lemma {:induction false} MinusBySmallest(files: seq<FileMeta>, gone: seq<FileMeta>)
    requires BySmallest(files)
    ensures BySmallest(Minus(files, gone))
  {
    if files != [] {
      var init, last := files[..|files| - 1], files[|files| - 1];
      MinusBySmallest(init, gone);
      MinusIs(init, gone);
      var rest := Minus(init, gone);
      forall i | 0 <= i < |rest| ensures !Before(last.smallest, rest[i].smallest) && rest[i] != last {
        assert rest[i] in init;
      }
    }
  }

  /** There is a place for a new file. */
  lemma {:induction false} Insertable(files: seq<FileMeta>, f: FileMeta) returns (out: seq<FileMeta>)
    requires BySmallest(files) && f !in files
    ensures BySmallest(out) && forall g :: g in out <==> g in files || g == f
  {
    var p := 0;
    while p < |files| && !Before(f.smallest, files[p].smallest)
      invariant p <= |files| && forall i :: 0 <= i < p ==> !Before(f.smallest, files[i].smallest)
    {
      p := p + 1;
    }
    out := files[..p] + [f] + files[p..];
    SplitMembers(files, p, f);
    CompactionRuns.InsertedAt(files, f, p, out);
  }

  /** A version with the one output installed. */
  lemma {:induction false} OneTableEnds(r: Race) returns (o: Outputs, v2: Version)
    requires Running(r) && Written(r) != []
    ensures Ends(r, o, v2) && o == OneTable(r.disk', r.next, Written(r))
  {
    o := OneTable(r.disk', r.next, Written(r));
    OneTableWrote(r.disk', r.next, Written(r));
    RaceParts(r);
    NumberBelow(r);
    var rest, out := Minus(r.v'.levels[r.level + 1], r.in1), o.outs[0];
    hide Wrote, Ok, Chosen, Merged, Flushed, Allowed, Written, BySmallest;
    MinusBySmallest(r.v'.levels[r.level + 1], r.in1);
    StaysOrNew(r, out);
    assert out.number !in r.disk' && out.number !in r.disk;
    var files := Insertable(rest, out);
    v2 := Version(r.v'.levels[r.level := Minus(r.v'.levels[r.level], r.in0)][r.level + 1 := files]);
    forall g ensures g in files <==> g in rest || g in o.outs { assert o.outs == [out]; }
  }

  /** A flush to the output level of a running compaction is safe, however the outputs will
      be cut, exactly when what the compaction writes lies on one side of the new table. */
  lemma {:induction false} SafeCutsExactly(r: Race)
    requires Running(r)
    ensures SafeCuts(r) <==> OneSide(Written(r), r.f)
  {
    RaceIs(r);
    hide Running, Ends, Written, Cut, Disjoint;
    if OneSide(Written(r), r.f) {
      forall o, v2 | Ends(r, o, v2) && |v2.levels| == KNumLevels ensures Disjoint(v2.levels[r.level + 1]) {
        EndsCut(r, o, v2);
        CutIsSeparate(r, o);
        InstalledExactly(r, o, v2);
      }
    }
    if SafeCuts(r) && Written(r) != [] {
      var o, v2 := OneTableEnds(r);
      InstalledExactly(r, o, v2);
      OneTableSides(r);
    }
  }

  lemma {:induction false} EndsCut(r: Race, o: Outputs, v2: Version)
    requires Running(r) && Ends(r, o, v2)
    ensures Cut(r, o)
  {
  }

  /** A single table that does not meet the new one has everything on one side of it. */
  lemma {:induction false} OneTableSides(r: Race)
    requires Running(r) && Written(r) != [] && AllSeparate(OneTable(r.disk', r.next, Written(r)).outs, r.f)
    ensures OneSide(Written(r), r.f)
  {
    SurvivorsAre(r.v, r.level, r.stream, |r.stream|, r.ss);
    assert Versioned(Written(r));
    hide Running, Written;
    var es, outs := Written(r), OneTable(r.disk', r.next, Written(r)).outs;
    assert Separate(outs[0], r.f);
    forall i | 0 <= i < |es| ensures !Precedes(es[i].key, es[0].key) && !Precedes(es[|es| - 1].key, es[i].key) {
      assert i > 0 ==> Precedes(es[0].key, es[i].key);
      assert i < |es| - 1 ==> Precedes(es[i].key, es[|es| - 1].key);
    }
  }

  // ----- a read that is lost -----

  function GapTable(k: UserKey, s: nat): seq<Entry> { [Entry(InternalKey(k, s, Value), [])] }
  function GapFile(n: nat, k: UserKey, s: nat): FileMeta {
    FileMeta(n, 100, InternalKey(k, s, Value), InternalKey(k, s, Value))
  }

  const G1 := GapFile(1, 1.0, 3)
  const G9 := GapFile(2, 9.0, 4)
  const G5 := GapFile(3, 5.0, 5)
  const GapDisk: Disk := map[1 := GapTable(1.0, 3), 2 := GapTable(9.0, 4)]
  const GapVersion := Version([[], [G1, G9], [], [], [], [], []])
  const GapVersion' := Version([[], [G1, G9], [G5], [], [], [], []])
  const GapStream := GapTable(1.0, 3) + GapTable(9.0, 4)

  /** Inputs 1 and 9 of a manual compaction from level 1, and a flush of key 5 to level 2
      while it runs. */
  const GapRace := Race(GapDisk, GapVersion, 1, [G1, G9], [], GapStream, 5,
                        GapDisk[3 := GapTable(5.0, 5)], GapVersion', G5, GapTable(5.0, 5), 4)
  const GapOutputs := OneTable(GapDisk[3 := GapTable(5.0, 5)], 4, GapStream)
  const GapEnd := Version([[], [], [GapOutputs.outs[0], G5], [], [], [], []])

  lemma {:induction false} GapOk()
    ensures Ok(GapDisk, GapVersion) && Chosen(1, GapVersion.levels[1], GapVersion.levels[2], [G1, G9], [])
  {
    forall l | 0 <= l < KNumLevels
      ensures AllStored(GapDisk, GapVersion.levels[l]) && (l >= 1 ==> Disjoint(GapVersion.levels[l]))
    {
    }
    forall l, m | 0 <= l < m < KNumLevels ensures Newer(GapDisk, GapVersion.levels[l], GapVersion.levels[m]) {
      forall e ensures !InLevel(GapDisk, [], e) {}
    }
  }

  lemma {:induction false} GapMerged()
    ensures Merged(GapDisk, [G1, G9], [], GapStream)
  {
    forall e ensures e in GapStream <==> IsInput(GapDisk, [G1, G9], [], e) {
      assert InLevel(GapDisk, [G1, G9], e) <==> InFile(GapDisk, [G1, G9][0], e) || InFile(GapDisk, [G1, G9][1], e);
      assert !InLevel(GapDisk, [], e);
    }
  }

  lemma {:induction false} GapFlushed()
    ensures Flushed(GapDisk, GapRace.disk', GapVersion, GapVersion', 2, G5, GapTable(5.0, 5)) &&
            Allowed(GapVersion, 2, G5)
  {
    var r := Range(At(5.0), At(5.0));
    assert !Overlaps(G1, r) && !Overlaps(G9, r);
    forall l | 0 <= l <= 2 ensures !SomeOverlaps(GapVersion.levels[l], r) {}
  }

  lemma {:induction false} GapWritten()
    ensures Written(GapRace) == GapStream
  {
    var r := GapRace;
    assert r.stream[0].key.user != r.stream[1].key.user;
    assert !Dropped(r.v, 1, r.stream, 0, 5) && !Dropped(r.v, 1, r.stream, 1, 5);
    assert Survivors(r.v, 1, r.stream, 1, 5) == [r.stream[0]];
  }

  lemma {:induction false} GapEnds()
    ensures Running(GapRace) && Ends(GapRace, GapOutputs, GapEnd)
  {
    GapOk();
    GapMerged();
    GapFlushed();
    GapWritten();
    hide Ok, Chosen, Merged, Flushed, Allowed, Written, Wrote;
    OneTableWrote(GapRace.disk', 4, GapStream);
    assert Minus([G1, G9], [G1, G9]) == [] by {
      assert [G1, G9][..1] == [G1] && [G1][..0] == [];
      assert Minus([G1], [G1, G9]) == [];
    }
    assert Minus([G5], []) == [G5] by { assert [G5][..0] == []; }
  }

  lemma {:induction false} GapBreaks()
    ensures !OneSide(GapStream, G5) && !Disjoint([GapOutputs.outs[0], G5]) && !Beside(2, G5, 1, [G1, G9], [])
  {
    assert GapStream[0].key == G1.smallest && GapStream[1].key == G9.smallest;
    assert [G1, G9][0] == G1 && [G1, G9][1] == G9;
    var files := [GapOutputs.outs[0], G5];
    assert !Precedes(files[0].largest, files[1].smallest);
  }

  lemma {:induction false} GapProbe(s: nat)
    requires s >= 5
    ensures DeepChoice([GapOutputs.outs[0], G5], 5.0, s) == [GapOutputs.outs[0]] && Probe(GapStream, 5.0, s) == Miss
  {
    var files, key := [GapOutputs.outs[0], G5], LookupKey(5.0, s);
    assert Search(files, key, 0, 0) == 0;
    assert Search(files, key, 0, 1) == 0;
    assert SeekIndex(GapStream[1..], key) == 0;
    assert SeekIndex(GapStream, key) == 1;
  }

  lemma {:induction false} GapFiles(s: nat)
    requires s >= 5
    ensures GapEnd.levels[2] == [GapOutputs.outs[0], G5] && Reads(GapOutputs.outs[0]) == GapStream
    ensures var e := GapTable(5.0, 5)[0]; InFile(GapOutputs.disk, G5, e) && Visible(e, 5.0, s)
  {
  }

  /** The table that a file of the installed version has. */
  function Reads(f: FileMeta): seq<Entry> {
    if f.number in GapOutputs.disk then GapOutputs.disk[f.number] else []
  }

  /** The flush goes to a level it may go to, the one output spans the new table, and the
      version installed is not in order: a read of key 5 probes the output, which does not
      have it, and never the table that does. */
  lemma {:induction false} GapReadIsLost(s: nat)
    requires s >= 5
    ensures Running(GapRace) && Ends(GapRace, GapOutputs, GapEnd) && !OneSide(Written(GapRace), G5)
    ensures !Disjoint(GapEnd.levels[2]) && !Beside(2, G5, 1, [G1, G9], [])
    ensures var e := GapTable(5.0, 5)[0]; InFile(GapOutputs.disk, G5, e) && G5 in GapEnd.levels[2] && Visible(e, 5.0, s)
    ensures DeepChoice(GapEnd.levels[2], 5.0, s) == [GapOutputs.outs[0]] &&
            Probe(Reads(GapOutputs.outs[0]), 5.0, s) == Miss
  {
    hide *;
    GapEnds();
    GapWritten();
    GapBreaks();
    GapProbe(s);
    GapFiles(s);
  }
}

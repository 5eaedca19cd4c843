/** A memtable flushed while a compaction runs (db/db_impl.cc, DoCompactionWork calls
    CompactMemTable): the inputs stay fit, nothing older is left behind, and what was
    decided against the version at the start still stands. */
module Interleavings {
  import opened Keys
  import opened Versions
  import opened Inputs
  import opened Compactions
  import opened LevelSets
  import opened CompactionSafety
  import opened Flushes

  /** A table goes to level `at` while a compaction from `level` runs. If it goes to the
      level the outputs go to, it must not lie between the inputs. */
  ghost predicate Beside(at: nat, f: FileMeta, level: nat, in0: seq<FileMeta>, in1: seq<FileMeta>) {
    at == level + 1 ==> Apart(f, in0) && Apart(f, in0 + in1)
  }

  lemma {:induction false} OldOrNew(disk: Disk, disk': Disk, v: Version, v': Version, at: nat, f: FileMeta,
                                    es: seq<Entry>, l: nat, g: FileMeta)
    requires |v.levels| == KNumLevels && Flushed(disk, disk', v, v', at, f, es) && l < KNumLevels
    ensures g in v'.levels[l] <==> g in v.levels[l] || (l == at && g == f)
  {
    assert [f] == [f][..1];
    assert g in [f] <==> g == f;
  }

  /** The new table is none of the files the version had. */
  lemma {:induction false} NewNumber(disk: Disk, disk': Disk, v: Version, v': Version, at: nat, f: FileMeta,
                                     es: seq<Entry>, l: nat, g: FileMeta)
    requires Ok(disk, v) && Flushed(disk, disk', v, v', at, f, es) && l < KNumLevels && g in v.levels[l]
    ensures Stored(disk, g) && g != f && g.number in disk && disk'[g.number] == disk[g.number]
  {
    var i :| 0 <= i < |v.levels[l]| && v.levels[l][i] == g;
    assert AllStored(disk, v.levels[l]) && Stored(disk, v.levels[l][i]);
  }

  /** A table that went below level 0 shares no user key range with a file at or above it. */
  lemma {:induction false} NoneAround(disk: Disk, disk': Disk, v: Version, v': Version, at: nat, f: FileMeta,
                                      es: seq<Entry>, l: nat, g: FileMeta)
    requires Ok(disk, v) && Flushed(disk, disk', v, v', at, f, es) && Allowed(v, at, f) && l <= at && 0 < at &&
             g in v.levels[l]
    ensures f.largest.user < g.smallest.user || g.largest.user < f.smallest.user
  {
    var i :| 0 <= i < |v.levels[l]| && v.levels[l][i] == g;
    assert !SomeOverlaps(v.levels[l], Range(At(f.smallest.user), At(f.largest.user)));
    assert !Overlaps(v.levels[l][i], Range(At(f.smallest.user), At(f.largest.user)));
  }

  lemma {:induction false} FlushKeepsFit(disk: Disk, disk': Disk, v: Version, v': Version, at: nat, f: FileMeta,
                                         es: seq<Entry>,
                                         level: nat, in0: seq<FileMeta>, in1: seq<FileMeta>)
    requires Ok(disk, v) && Flushed(disk, disk', v, v', at, f, es) && Allowed(v, at, f) && level + 1 < KNumLevels
    requires Fit(v.levels[level], v.levels[level + 1], in0, in1) && Beside(at, f, level, in0, in1)
    ensures Fit(v'.levels[level], v'.levels[level + 1], in0, in1)
  {
    hide Ok, Flushed, Allowed, Apart;
    assert |v.levels| == KNumLevels && |v'.levels| == KNumLevels by { Sizes(disk, disk', v, v', at, f, es); }
    var files1, files1' := v.levels[level + 1], v'.levels[level + 1];
    forall i | 0 <= i < |in0|
      ensures in0[i] in v'.levels[level]
    {
      OldOrNew(disk, disk', v, v', at, f, es, level, in0[i]);
    }
    forall i | 0 <= i < |in1| ensures in1[i] in files1' { OldOrNew(disk, disk', v, v', at, f, es, level + 1, in1[i]); }
    forall i | 0 <= i < |files1'| && files1'[i] !in in1 ensures Apart(files1'[i], in0) && Apart(files1'[i], in0 + in1) {
      OldOrNew(disk, disk', v, v', at, f, es, level + 1, files1'[i]);
      if files1'[i] in files1 { var n :| 0 <= n < |files1| && files1[n] == files1'[i]; }
    }
    forall i, j | 0 <= i < |files1'| && files1'[i] !in in1 && 0 <= j < |in0|
      ensures files1'[i].largest.user < in0[j].smallest.user || in0[j].largest.user < files1'[i].smallest.user
    {
      OldOrNew(disk, disk', v, v', at, f, es, level + 1, files1'[i]);
      if files1'[i] in files1 {
        var n :| 0 <= n < |files1| && files1[n] == files1'[i];
      } else {
        NoneAround(disk, disk', v, v', at, f, es, level, in0[j]);
      }
    }
  }

  lemma {:induction false} Sizes(disk: Disk, disk': Disk, v: Version, v': Version, at: nat, f: FileMeta, es: seq<Entry>)
    requires Ok(disk, v) && Flushed(disk, disk', v, v', at, f, es)
    ensures |v.levels| == KNumLevels && |v'.levels| == KNumLevels && disk' == disk[f.number := es]
  {
  }

  /** Files of the old version hold what they held. */
  lemma {:induction false} OldFiles(disk: Disk, disk': Disk, v: Version, v': Version, at: nat, f: FileMeta,
                                    es: seq<Entry>, l: nat, files: seq<FileMeta>, e: Entry)
    requires Ok(disk, v) && Flushed(disk, disk', v, v', at, f, es) && l < KNumLevels && Subset(files, v.levels[l])
    ensures InLevel(disk', files, e) <==> InLevel(disk, files, e)
  {
    hide Ok, Flushed;
    forall i | 0 <= i < |files| ensures InFile(disk', files[i], e) <==> InFile(disk, files[i], e) {
      NewNumber(disk, disk', v, v', at, f, es, l, files[i]);
      Sizes(disk, disk', v, v', at, f, es);
    }
  }

  /** What stays behind at a level is what did, and the new table. */
  lemma {:induction false} LeftOrNew(disk: Disk, disk': Disk, v: Version, v': Version, at: nat, f: FileMeta,
                                     es: seq<Entry>, l: nat, gone: seq<FileMeta>, x: Entry)
    requires Ok(disk, v) && Flushed(disk, disk', v, v', at, f, es) && l < KNumLevels && |v'.levels| == KNumLevels
    requires InLevel(disk', Minus(v'.levels[l], gone), x)
    ensures InLevel(disk, Minus(v.levels[l], gone), x) || x in es
  {
    hide Ok, Flushed;
    Sizes(disk, disk', v, v', at, f, es);
    MinusIs(v.levels[l], gone);
    MinusIs(v'.levels[l], gone);
    var rest := Minus(v'.levels[l], gone);
    var i :| 0 <= i < |rest| && InFile(disk', rest[i], x);
    assert rest[i] in rest;
    OldOrNew(disk, disk', v, v', at, f, es, l, rest[i]);
    if rest[i] in v.levels[l] {
      NewNumber(disk, disk', v, v', at, f, es, l, rest[i]);
      InMember(disk, Minus(v.levels[l], gone), rest[i], x);
    }
  }

  lemma {:induction false} FlushKeepsNoOlder(disk: Disk, disk': Disk, v: Version, v': Version, at: nat, f: FileMeta,
                                             es: seq<Entry>,
                                             level: nat, in0: seq<FileMeta>, in1: seq<FileMeta>)
    requires Ok(disk, v) && Flushed(disk, disk', v, v', at, f, es) && NewerSet(Elements(es), Contents(disk, v))
    requires level + 1 < KNumLevels && Subset(in0, v.levels[level]) && Subset(in1, v.levels[level + 1])
    requires NoOlderLeftBehind(disk, v, level, in0, in1)
    ensures |v'.levels| == KNumLevels && NoOlderLeftBehind(disk', v', level, in0, in1)
  {
    hide Ok, Flushed, InLevel;
    Sizes(disk, disk', v, v', at, f, es);
    forall x: Entry, e: Entry | (InLevel(disk', Minus(v'.levels[level], in0), x) ||
                                 InLevel(disk', Minus(v'.levels[level + 1], in1), x))
                  && (InLevel(disk', in0, e) || InLevel(disk', in1, e)) && x.key.user == e.key.user
      ensures x.key.sequence > e.key.sequence
    {
      OldFiles(disk, disk', v, v', at, f, es, level, in0, e);
      OldFiles(disk, disk', v, v', at, f, es, level + 1, in1, e);
      InputIsThere(disk, v, level, in0, in1, e);
      if InLevel(disk', Minus(v'.levels[level], in0), x) {
        LeftOrNew(disk, disk', v, v', at, f, es, level, in0, x);
      } else {
        LeftOrNew(disk, disk', v, v', at, f, es, level + 1, in1, x);
      }
      OlderPair(disk, v, level, in0, in1, es, x, e);
    }
  }

  lemma {:induction false} OlderPair(disk: Disk, v: Version, level: nat, in0: seq<FileMeta>, in1: seq<FileMeta>,
                                     es: seq<Entry>, x: Entry, e: Entry)
    requires |v.levels| == KNumLevels && level + 1 < KNumLevels
    requires NewerSet(Elements(es), Contents(disk, v)) && NoOlderLeftBehind(disk, v, level, in0, in1)
    requires IsLeft(disk, v, level, in0, in1, x) || x in es
    requires IsInput(disk, in0, in1, e) && InVersion(disk, v, e) && x.key.user == e.key.user
    ensures x.key.sequence > e.key.sequence
  {
    hide InLevel, InVersion;
    if x in es { assert x in Elements(es) && e in Contents(disk, v); }
  }

  lemma {:induction false} InputRange(disk: Disk, v: Version, level: nat, ins: seq<FileMeta>,
                                      e: Entry) returns (g: FileMeta)
    requires Ok(disk, v) && level < KNumLevels && Subset(ins, v.levels[level]) && InLevel(disk, ins, e)
    ensures g in v.levels[level] && g.smallest.user <= e.key.user <= g.largest.user
  {
    var i :| 0 <= i < |ins| && InFile(disk, ins[i], e);
    g := ins[i];
    var j :| 0 <= j < |v.levels[level]| && v.levels[level][j] == g;
    assert AllStored(disk, v.levels[level]) && Stored(disk, v.levels[level][j]);
    InRange(disk, g, e);
  }

  lemma {:induction false} FlushKeepsBase(disk: Disk, disk': Disk, base: Version, v: Version, v': Version, at: nat,
                                          f: FileMeta, es: seq<Entry>,
                                          level: nat, in0: seq<FileMeta>, in1: seq<FileMeta>)
    requires Ok(disk, v) && Flushed(disk, disk', v, v', at, f, es) && Allowed(v, at, f)
    requires level + 1 < KNumLevels && Subset(in0, v.levels[level]) && Subset(in1, v.levels[level + 1])
    requires StillBase(disk, base, v, level, in0, in1)
    ensures StillBase(disk', base, v', level, in0, in1)
  {
    hide Ok, Flushed, Allowed, InLevel, BaseLevel;
    Sizes(disk, disk', v, v', at, f, es);
    forall e | IsInput(disk', in0, in1, e) && BaseLevel(base, level, e.key.user)
      ensures BaseLevel(v', level, e.key.user)
    {
      OldFiles(disk, disk', v, v', at, f, es, level, in0, e);
      OldFiles(disk, disk', v, v', at, f, es, level + 1, in1, e);
      BaseAfterFlush(disk, disk', v, v', at, f, es, level, in0, in1, e);
    }
  }

  lemma {:induction false} BaseAfterFlush(disk: Disk, disk': Disk, v: Version, v': Version, at: nat, f: FileMeta,
                                          es: seq<Entry>,
                                          level: nat, in0: seq<FileMeta>, in1: seq<FileMeta>, e: Entry)
    requires Ok(disk, v) && Flushed(disk, disk', v, v', at, f, es) && Allowed(v, at, f)
    requires level + 1 < KNumLevels && Subset(in0, v.levels[level]) && Subset(in1, v.levels[level + 1])
    requires IsInput(disk, in0, in1, e) && BaseLevel(v, level, e.key.user)
    ensures BaseLevel(v', level, e.key.user)
  {
    hide Ok, Flushed, Allowed, InLevel;
    Sizes(disk, disk', v, v', at, f, es);
    forall l, i | level + 2 <= l < |v'.levels| && 0 <= i < |v'.levels[l]|
      ensures !HoldsKey(v'.levels[l][i], e.key.user)
    {
      var g := v'.levels[l][i];
      OldOrNew(disk, disk', v, v', at, f, es, l, g);
      if g in v.levels[l] {
        var n :| 0 <= n < |v.levels[l]| && v.levels[l][n] == g;
      } else if InLevel(disk, in0, e) {
        var h := InputRange(disk, v, level, in0, e);
        NoneAround(disk, disk', v, v', at, f, es, level, h);
      } else {
        var h := InputRange(disk, v, level + 1, in1, e);
        NoneAround(disk, disk', v, v', at, f, es, level + 1, h);
      }
    }
  }

  /** A single input at the upper level leaves no gap: any level that
      PickLevelForMemTableOutput allows is beside the compaction. */
  lemma {:induction false} OneInputHasNoGap(disk: Disk, v: Version, at: nat, f: FileMeta, level: nat, g: FileMeta,
                                            in1: seq<FileMeta>)
    requires Ok(disk, v) && Allowed(v, at, f) && at < KNumLevels && level + 1 < KNumLevels &&
             f.smallest.user <= f.largest.user
    requires g in v.levels[level] && Subset(in1, v.levels[level + 1]) && Picks(v.levels[level + 1], [g], in1)
    ensures Beside(at, f, level, [g], in1)
  {
    if at == level + 1 {
      var r := Range(At(f.smallest.user), At(f.largest.user));
      var n :| 0 <= n < |v.levels[level]| && v.levels[level][n] == g;
      assert !SomeOverlaps(v.levels[level], r) && !SomeOverlaps(v.levels[level + 1], r);
      assert !Overlaps(v.levels[level][n], r);
      var small, large :| Encloses([g], small, large) &&
          in1 == Overlapping(v.levels[level + 1], UserRange(small, large));
      assert small == g.smallest && large == g.largest;
      OverlappingMembers(v.levels[level + 1], UserRange(small, large));
      var all := [g] + in1;
      forall i | 0 <= i < |all|
        ensures if f.largest.user < g.smallest.user then f.largest.user < all[i].smallest.user
                else all[i].largest.user < f.smallest.user
      {
        if i > 0 {
          assert all[i] == in1[i - 1] && in1[i - 1] in v.levels[level + 1] && Overlaps(all[i], UserRange(small, large));
          var m :| 0 <= m < |v.levels[level + 1]| && v.levels[level + 1][m] == all[i];
          assert !Overlaps(v.levels[level + 1][m], r);
        }
      }
      assert [g][0] == all[0];
    }
  }
}

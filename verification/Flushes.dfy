/** Flushing a memtable (db/db_impl.cc WriteLevel0Table, db/version_set.cc
    PickLevelForMemTableOutput): the level a new table may go to. */
module Flushes {
  import opened Keys
  import opened Versions
  import opened Inputs
  import opened Compactions
  import opened LevelSets
  import opened CompactionSafety

  const KMaxMemCompactLevel: nat := 2
  const KMaxGrandParentOverlapBytes: nat := 10 * KTargetFileSize

  ghost predicate SomeOverlaps(files: seq<FileMeta>, r: Range) {
    exists i :: 0 <= i < |files| && Overlaps(files[i], r)
  }

  ghost predicate SequencesFit(files: seq<FileMeta>) {
    forall i :: 0 <= i < |files| ==> files[i].largest.sequence <= KMaxSequenceNumber
  }

  /** SomeFileOverlapsRange: a scan at level 0, elsewhere one binary search for the
      first file that ends at or after the range starts. */
  method SomeFileOverlapsRange(disjointSorted: bool, files: seq<FileMeta>, r: Range) returns (some: bool)
    requires disjointSorted ==> Disjoint(files) && Sane(files) && SequencesFit(files)
    requires disjointSorted ==> LargestUp(files)
    ensures some <==> SomeOverlaps(files, r)
  {
    if !disjointSorted {
      for i := 0 to |files|
        invariant forall j :: 0 <= j < i ==> !Overlaps(files[j], r)
      {
        if (r.lo.At? && r.lo.k > files[i].largest.user) || (r.hi.At? && r.hi.k < files[i].smallest.user) {
          // no overlap
        } else {
          assert Overlaps(files[i], r);
          return true;
        }
      }
      return false;
    }
    var index := 0;
    if r.lo.At? {
      index := FindFile(files, InternalKey(r.lo.k, KMaxSequenceNumber, Value));
    }
    assert forall j :: 0 <= j < index ==> !Overlaps(files[j], r);
    if index >= |files| {
      return false;
    }
    some := !(r.hi.At? && r.hi.k < files[index].smallest.user);
    if some {
      assert Overlaps(files[index], r);
    } else {
      forall j | index < j < |files| ensures !Overlaps(files[j], r) {
        assert Precedes(files[index].largest, files[j].smallest);
      }
    }
  }

  /** Why a table does not go below `level`: level 0 overlaps it, or the next level does,
      or it would overlap too much two levels down. */
  ghost predicate Stops(v: Version, level: nat, r: Range)
    requires |v.levels| == KNumLevels && level < KMaxMemCompactLevel
  {
    || SomeOverlaps(v.levels[0], r) || SomeOverlaps(v.levels[level + 1], r)
    || TotalFileSize(Overlapping(v.levels[level + 2], r)) > KMaxGrandParentOverlapBytes
  }

  /** Version::PickLevelForMemTableOutput: below level 0 only if no file from level
      0 down to the chosen level overlaps, and then as far down as it may go. */
  method PickLevelForMemTableOutput(v: Version, small: UserKey, large: UserKey) returns (level: nat)
    requires |v.levels| == KNumLevels
    requires forall l :: 1 <= l < KNumLevels ==> Disjoint(v.levels[l]) && Sane(v.levels[l]) && SequencesFit(v.levels[l])
    requires forall l :: 1 <= l < KNumLevels ==> LargestUp(v.levels[l])
    ensures level <= KMaxMemCompactLevel
    ensures level > 0 ==> forall l :: 0 <= l <= level ==> !SomeOverlaps(v.levels[l], Range(At(small), At(large)))
    ensures level < KMaxMemCompactLevel ==> Stops(v, level, Range(At(small), At(large)))
  {
    var r := Range(At(small), At(large));
    level := 0;
    var some := SomeFileOverlapsRange(false, v.levels[0], r);
    if !some {
      while level < KMaxMemCompactLevel
        invariant level <= KMaxMemCompactLevel
        invariant forall l :: 0 <= l <= level ==> !SomeOverlaps(v.levels[l], r)
      {
        some := SomeFileOverlapsRange(true, v.levels[level + 1], r);
        if some {
          break;
        }
        if level + 2 < KNumLevels {
          var overlaps, _ := GetOverlappingInputs(level + 2, v.levels[level + 2], r);
          if TotalFileSize(overlaps) > KMaxGrandParentOverlapBytes {
            break;
          }
        }
        level := level + 1;
      }
    }
  }

  // ----- installing the flushed table -----

  /** Table `f` with entries `es` was written and added at `level`. */
  ghost predicate Flushed(disk: Disk, disk': Disk, v: Version, v': Version, level: nat, f: FileMeta, es: seq<Entry>)
    requires |v.levels| == KNumLevels
  {
    && level < KNumLevels
    && (forall n :: n in disk ==> n < f.number)
    && disk' == disk[f.number := es] && Stored(disk', f)
    && |v'.levels| == KNumLevels
    && (forall l :: 0 <= l < KNumLevels && l != level ==> v'.levels[l] == v.levels[l])
    && BySmallest(v'.levels[level])
    && AreUnion(v'.levels[level], v.levels[level], [f])
  }

  /** The level is one that PickLevelForMemTableOutput may return. */
  ghost predicate Allowed(v: Version, level: nat, f: FileMeta)
    requires |v.levels| == KNumLevels
  {
    level > 0 ==> forall l :: 0 <= l <= level && l < KNumLevels ==>
                    !SomeOverlaps(v.levels[l], Range(At(f.smallest.user), At(f.largest.user)))
  }

  lemma {:induction false} FlushedSets(disk: Disk, disk': Disk, v: Version, v': Version, level: nat, f: FileMeta,
                                       es: seq<Entry>)
    requires Ok(disk, v) && Flushed(disk, disk', v, v', level, f, es)
    ensures Sets(disk', v') == Sets(disk, v)[level := Sets(disk, v)[level] + Elements(es)]
    ensures forall l :: 0 <= l < KNumLevels ==> AllStored(disk', v'.levels[l])
    ensures Contents(disk', v') == Contents(disk, v) + Elements(es)
  {
    var sets, sets' := Sets(disk, v), Sets(disk', v');
    assert Extends(disk, disk');
    forall l | 0 <= l < KNumLevels
      ensures AllStored(disk', v'.levels[l])
      ensures sets'[l] == if l == level then sets[l] + Elements(es) else sets[l]
    {
      assert AllStored(disk, v.levels[l]);
      LevelFrame(disk, disk', v.levels[l]);
      if l == level {
        UnionLevel(disk', v'.levels[l], v.levels[l], [f]);
        assert forall e :: InLevel(disk', [f], e) <==> InFile(disk', [f][0], e);
      }
    }
    assert sets' == sets[level := sets[level] + Elements(es)];
    AllUpdate(sets, level, Elements(es));
    SetsAreContents(disk, v);
    SetsAreContents(disk', v');
  }

  /** A file that overlaps nothing shares no user key with the level. */
  lemma {:induction false} NoOverlapNoKey(disk: Disk, files: seq<FileMeta>, f: FileMeta, a: Entry, k: UserKey)
    requires AllStored(disk, files) && !SomeOverlaps(files, Range(At(f.smallest.user), At(f.largest.user)))
    requires InLevel(disk, files, a) && f.smallest.user <= k <= f.largest.user
    ensures a.key.user != k
  {
    var i :| 0 <= i < |files| && InFile(disk, files[i], a);
    assert Stored(disk, files[i]);
    InRange(disk, files[i], a);
    assert !Overlaps(files[i], Range(At(f.smallest.user), At(f.largest.user)));
  }

  lemma {:induction false} FlushIsLayered(disk: Disk, disk': Disk, v: Version, v': Version, level: nat, f: FileMeta,
                                          es: seq<Entry>)
    requires Ok(disk, v) && Flushed(disk, disk', v, v', level, f, es) && Allowed(v, level, f)
    requires NewerSet(Elements(es), Contents(disk, v))
    ensures Layered(Sets(disk', v'))
  {
    var sets := Sets(disk, v);
    FlushedSets(disk, disk', v, v', level, f, es);
    OkIsUnique(disk, v);
    SetsAreContents(disk, v);
    forall l | 0 <= l < level ensures NewerSet(sets[l], Elements(es)) {
      forall a: Entry, b | a in sets[l] && b in Elements(es) ensures a.key.user != b.key.user {
        InRange(disk', f, b);
        assert AllStored(disk, v.levels[l]);
        NoOverlapNoKey(disk, v.levels[l], f, a, b.key.user);
      }
    }
    forall l | 0 <= l < KNumLevels ensures NewerSet(Elements(es), sets[l]) {
      forall b | b in sets[l] ensures b in Contents(disk, v) { assert InSome(sets, b); }
    }
  }

  lemma {:induction false} FlushLevelZero(disk: Disk, disk': Disk, v: Version, v': Version, f: FileMeta, es: seq<Entry>)
    requires Ok(disk, v) && Flushed(disk, disk', v, v', 0, f, es)
    requires NewerSet(Elements(es), Contents(disk, v))
    ensures NumberedByAge(disk', v'.levels[0])
  {
    var files, files' := v.levels[0], v'.levels[0];
    assert AllStored(disk, files);
    forall i, j | 0 <= i < |files'| && 0 <= j < |files'|
      ensures files'[i] != files'[j] ==> files'[i].number != files'[j].number
      ensures files'[i].number > files'[j].number ==> NewerFile(disk', files'[i], files'[j])
    {
      assert files'[i] in files' && files'[j] in files';
      if files'[i] in files { FreshIsNewest(disk, disk', v, v', f, es, files'[i]); }
      if files'[j] in files { FreshIsNewest(disk, disk', v, v', f, es, files'[j]); }
      if files'[i] in files && files'[j] in files {
        AgePair(disk, disk', files, files'[i], files'[j]);
      }
    }
  }

  /** The flushed table has the largest number and the newest data. */
  lemma {:induction false} FreshIsNewest(disk: Disk, disk': Disk, v: Version, v': Version, f: FileMeta,
                                         es: seq<Entry>, g: FileMeta)
    requires Ok(disk, v) && Flushed(disk, disk', v, v', 0, f, es) && g in v.levels[0]
    requires NewerSet(Elements(es), Contents(disk, v))
    ensures g.number < f.number && NewerFile(disk', f, g)
  {
    var files := v.levels[0];
    var i :| 0 <= i < |files| && files[i] == g;
    assert AllStored(disk, files) && Stored(disk, files[i]);
    forall a, b | InFile(disk', f, a) && InFile(disk', g, b) && a.key.user == b.key.user
      ensures a.key.sequence > b.key.sequence
    {
      assert InFile(disk, files[i], b);
      assert InLevel(disk, v.levels[0], b);
      assert InVersion(disk, v, b);
      assert a in Elements(es);
    }
  }

  lemma {:induction false} FlushLevelDisjoint(disk: Disk, disk': Disk, v: Version, v': Version, level: nat,
                                              f: FileMeta, es: seq<Entry>)
    requires Ok(disk, v) && Flushed(disk, disk', v, v', level, f, es) && Allowed(v, level, f) && level > 0
    ensures Disjoint(v'.levels[level])
  {
    var files, files' := v.levels[level], v'.levels[level];
    FlushedSets(disk, disk', v, v', level, f, es);
    assert AllStored(disk, files) && Disjoint(files);
    InRange(disk', f, es[0]);
    forall g | g in files ensures Separate(f, g) {
      var i :| 0 <= i < |files| && files[i] == g;
      assert Stored(disk, files[i]);
      assert !Overlaps(files[i], Range(At(f.smallest.user), At(f.largest.user)));
    }
    forall i, j | 0 <= i < j < |files'| ensures Separate(files'[i], files'[j]) {
      assert files'[i] in files' && files'[j] in files';
      if files'[i] != f && files'[j] != f { InDisjoint(files, files'[i], files'[j]); }
    }
    SeparateIsDisjoint(disk', files');
  }

  /** The invariant holds with the new table, which adds just its entries. */
  lemma {:induction false} FlushKeepsOk(disk: Disk, disk': Disk, v: Version, v': Version, level: nat, f: FileMeta,
                                        es: seq<Entry>)
    requires Ok(disk, v) && Flushed(disk, disk', v, v', level, f, es) && Allowed(v, level, f)
    requires NewerSet(Elements(es), Contents(disk, v))
    ensures Ok(disk', v')
    ensures Contents(disk', v') == Contents(disk, v) + Elements(es)
  {
    FlushedSets(disk, disk', v, v', level, f, es);
    FlushIsLayered(disk, disk', v, v', level, f, es);
    if level == 0 {
      FlushLevelZero(disk, disk', v, v', f, es);
    } else {
      FlushLevelDisjoint(disk, disk', v, v', level, f, es);
      assert AllStored(disk, v.levels[0]);
      NumberedByAgeMinus(disk, disk', v.levels[0], []);
      MinusNothing(v.levels[0]);
    }
    OkFromSets(disk', v');
  }
}

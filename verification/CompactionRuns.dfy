/** One compaction from start to end: inputs chosen, merged, worked through and installed. */
module CompactionRuns {
  import opened Keys
  import opened Versions
  import opened Inputs
  import opened Compactions
  import opened LevelSets
  import opened LevelReads
  import opened CompactionSafety
  import opened Flushes
  import Mergers

  predicate NoTwice(files: seq<FileMeta>) { forall i, j :: 0 <= i < j < |files| ==> files[i] != files[j] }

  lemma {:induction false} OverlappingNoTwice(files: seq<FileMeta>, r: Range)
    requires NoTwice(files)
    ensures NoTwice(Overlapping(files, r))
  {
    if files != [] {
      var init, last := files[..|files| - 1], files[|files| - 1];
      OverlappingNoTwice(init, r);
      OverlappingMembers(init, r);
      var rest := Overlapping(init, r);
      forall i | 0 <= i < |rest| ensures rest[i] != last { assert rest[i] in rest; }
    }
  }

  lemma {:induction false} LevelNoTwice(disk: Disk, v: Version, l: nat)
    requires Ok(disk, v) && l < KNumLevels
    ensures NoTwice(v.levels[l]) && Sane(v.levels[l])
  {
    var files := v.levels[l];
    assert AllStored(disk, files);
    forall i | 0 <= i < |files| ensures files[i].smallest.user <= files[i].largest.user {
      assert Stored(disk, files[i]);
      InRange(disk, files[i], disk[files[i].number][0]);
    }
    forall i, j | 0 <= i < j < |files| ensures files[i] != files[j] {
      assert Stored(disk, files[i]);
      var e := disk[files[i].number][0];
      if files[i] == files[j] { FilesShareNothing(disk, v, l, i, j, e, e); }
    }
  }

  // ----- the merged stream -----

  /** The tables of the input files. */
  function TablesOf(disk: Disk, files: seq<FileMeta>): (lists: seq<seq<Entry>>)
    ensures |lists| == |files|
  {
    seq(|files|, i requires 0 <= i < |files| => if files[i].number in disk then disk[files[i].number] else [])
  }

  lemma {:induction false} SortedTable(es: seq<Entry>)
    requires Versioned(es)
    ensures Sorted(es)
  {
  }

  /** Two different input files share no key. */
  lemma {:induction false} InputsShareNothing(disk: Disk, v: Version, level: nat, in0: seq<FileMeta>,
                                              in1: seq<FileMeta>, i: nat, j: nat)
    requires Ok(disk, v) && level + 1 < KNumLevels && NoTwice(in0) && NoTwice(in1)
    requires Subset(in0, v.levels[level]) && Subset(in1, v.levels[level + 1]) && i < j < |in0 + in1|
    ensures Mergers.NoSharedKey(TablesOf(disk, in0 + in1)[i], TablesOf(disk, in0 + in1)[j])
  {
    var f, g := (in0 + in1)[i], (in0 + in1)[j];
    forall a, b | InFile(disk, f, a) && InFile(disk, g, b) ensures a.key != b.key {
      if j < |in0| {
        SameLevelKeys(disk, v, level, f, g, a, b);
      } else if i >= |in0| {
        assert f == in1[i - |in0|] && g == in1[j - |in0|];
        SameLevelKeys(disk, v, level + 1, f, g, a, b);
      } else {
        assert f == in0[i] && g == in1[j - |in0|];
        InMember(disk, v.levels[level], f, a);
        InMember(disk, v.levels[level + 1], g, b);
        assert Newer(disk, v.levels[level], v.levels[level + 1]);
      }
    }
  }

  lemma {:induction false} SameLevelKeys(disk: Disk, v: Version, l: nat, f: FileMeta, g: FileMeta, a: Entry, b: Entry)
    requires Ok(disk, v) && l < KNumLevels && f in v.levels[l] && g in v.levels[l] && f != g && InFile(disk, f, a) &&
             InFile(disk, g, b)
    ensures a.key != b.key
  {
    var i :| 0 <= i < |v.levels[l]| && v.levels[l][i] == f;
    var j :| 0 <= j < |v.levels[l]| && v.levels[l][j] == g;
    if a.key == b.key { FilesShareNothing(disk, v, l, i, j, a, b); }
  }

  lemma {:induction false} InputsMergeable(disk: Disk, v: Version, level: nat, in0: seq<FileMeta>, in1: seq<FileMeta>)
    requires Ok(disk, v) && level + 1 < KNumLevels && NoTwice(in0) && NoTwice(in1)
    requires Subset(in0, v.levels[level]) && Subset(in1, v.levels[level + 1])
    ensures Mergers.Mergeable(TablesOf(disk, in0 + in1))
  {
    var lists := TablesOf(disk, in0 + in1);
    forall i | 0 <= i < |lists| ensures Sorted(lists[i]) {
      InputStored(disk, v, level, in0, in1, i);
      SortedTable(lists[i]);
    }
    forall i, j | 0 <= i < j < |lists|
      ensures Mergers.NoSharedKey(lists[i], lists[j])
    {
      InputsShareNothing(disk, v, level, in0, in1, i, j);
    }
  }

  lemma {:induction false} InputStored(disk: Disk, v: Version, level: nat, in0: seq<FileMeta>, in1: seq<FileMeta>,
                                       i: nat)
    requires Ok(disk, v) && level + 1 < KNumLevels && Subset(in0, v.levels[level]) &&
             Subset(in1, v.levels[level + 1]) && i < |in0 + in1|
    ensures Stored(disk, (in0 + in1)[i])
  {
    assert AllStored(disk, v.levels[level]) && AllStored(disk, v.levels[level + 1]);
    SubsetStored(disk, v.levels[level], in0);
    SubsetStored(disk, v.levels[level + 1], in1);
    if i < |in0| { assert Stored(disk, in0[i]); } else { assert Stored(disk, in1[i - |in0|]); }
  }

  lemma {:induction false} InTables(disk: Disk, in0: seq<FileMeta>, in1: seq<FileMeta>, e: Entry)
    ensures Mergers.InSome(TablesOf(disk, in0 + in1), e) <==> IsInput(disk, in0, in1, e)
  {
    var lists, all := TablesOf(disk, in0 + in1), in0 + in1;
    if Mergers.InSome(lists, e) {
      var i :| 0 <= i < |lists| && e in lists[i];
      if i < |in0| { assert InFile(disk, in0[i], e); } else { assert InFile(disk, in1[i - |in0|], e); }
    }
    if InLevel(disk, in0, e) {
      var i :| 0 <= i < |in0| && InFile(disk, in0[i], e);
      assert e in lists[i];
    }
    if InLevel(disk, in1, e) {
      var i :| 0 <= i < |in1| && InFile(disk, in1[i], e);
      assert e in lists[|in0| + i];
    }
  }

  /** Sorted, and nothing twice: no two versions of a key share a number. */
  lemma {:induction false} UnionIsMerged(disk: Disk, v: Version, level: nat, in0: seq<FileMeta>, in1: seq<FileMeta>,
                                         stream: seq<Entry>)
    requires Ok(disk, v) && level + 1 < KNumLevels && Subset(in0, v.levels[level]) && Subset(in1, v.levels[level + 1])
    requires Mergers.IsUnion(TablesOf(disk, in0 + in1), stream)
    ensures Merged(disk, in0, in1, stream)
  {
    OkIsUnique(disk, v);
    forall e ensures e in stream <==> IsInput(disk, in0, in1, e) { InTables(disk, in0, in1, e); }
    forall i, j | 0 <= i < j < |stream| ensures Precedes(stream[i].key, stream[j].key) {
      assert stream[i] in stream && stream[j] in stream;
      InputIsThere(disk, v, level, in0, in1, stream[i]);
      InputIsThere(disk, v, level, in0, in1, stream[j]);
      assert Before(stream[i].key, stream[j].key);
    }
  }

  // ----- installing -----

  /** A file goes in front of the first one that starts after it. */
  method InsertFile(files: seq<FileMeta>, f: FileMeta) returns (out: seq<FileMeta>)
    requires BySmallest(files) && f !in files
    ensures BySmallest(out) && forall g :: g in out <==> g in files || g == f
  {
    var p := 0;
    while p < |files| && !Before(f.smallest, files[p].smallest)
      invariant p <= |files| && forall i :: 0 <= i < p ==> !Before(f.smallest, files[i].smallest)
    {
      p := p + 1;
    }
    out := files[..p] + [f] + files[p..];
    SplitMembers(files, p, f);
    InsertedAt(files, f, p, out);
  }

  lemma {:induction false} InsertedAt(files: seq<FileMeta>, f: FileMeta, p: nat, out: seq<FileMeta>)
    requires BySmallest(files) && f !in files && p <= |files| && out == files[..p] + [f] + files[p..]
    requires forall i :: 0 <= i < p ==> !Before(f.smallest, files[i].smallest)
    requires p < |files| ==> Before(f.smallest, files[p].smallest)
    ensures BySmallest(out)
  {
    assert forall i :: 0 <= i < |out| ==> out[i] == if i < p then files[i] else if i == p then f else files[i - 1];
    forall i | p <= i < |files| ensures Before(f.smallest, files[i].smallest) {
      assert p < i ==> !Before(files[i].smallest, files[p].smallest);
      KeysTotal(files[i].smallest, files[p].smallest);
    }
  }

  lemma {:induction false} KeysTotal(a: InternalKey, b: InternalKey)
    ensures Before(a, b) || Before(b, a) || a == b
  {
    BeforeIsPackedOrder(a, b);
  }

  method MergeFiles(base: seq<FileMeta>, outs: seq<FileMeta>) returns (files: seq<FileMeta>)
    requires BySmallest(base) && NoTwice(outs) && forall f :: f in outs ==> f !in base
    ensures BySmallest(files) && AreUnion(files, base, outs)
  {
    files := base;
    for i := 0 to |outs|
      invariant BySmallest(files) && forall f :: f in files <==> f in base || f in outs[..i]
    {
      assert outs[i] in outs && outs[i] !in outs[..i];
      files := InsertFile(files, outs[i]);
    }
    assert outs[..|outs|] == outs;
  }

  lemma {:induction false} DisjointBySmallest(disk: Disk, files: seq<FileMeta>)
    requires Disjoint(files) && AllStored(disk, files)
    ensures BySmallest(files)
  {
    forall i, j | 0 <= i < j < |files| ensures !Before(files[j].smallest, files[i].smallest) && files[i] != files[j] {
      assert Stored(disk, files[i]) && Stored(disk, files[j]);
      InRange(disk, files[i], disk[files[i].number][0]);
      assert Precedes(files[i].largest, files[j].smallest);
    }
  }

  /** Output files carry new numbers. */
  lemma {:induction false} OutputsAreNew(disk: Disk, next: nat, v: Version, l: nat, o: Outputs, es: seq<Entry>)
    requires Ok(disk, v) && l < KNumLevels && NumbersBelow(disk, next) && Wrote(disk, next, o, es)
    ensures NoTwice(o.outs) && forall f :: f in o.outs ==> f !in v.levels[l]
  {
    forall g | g in v.levels[l] ensures g.number < next {
      var i :| 0 <= i < |v.levels[l]| && v.levels[l][i] == g;
      assert AllStored(disk, v.levels[l]) && Stored(disk, v.levels[l][i]);
    }
    forall f | f in o.outs ensures f.number >= next {
      var j :| 0 <= j < |o.outs| && o.outs[j] == f;
    }
  }

  method Install(disk: Disk, next: nat, v: Version, level: nat, in0: seq<FileMeta>, in1: seq<FileMeta>, o: Outputs,
                 ghost es: seq<Entry>) returns (v': Version)
    requires Ok(disk, v) && level + 1 < KNumLevels && NumbersBelow(disk, next) && Wrote(disk, next, o, es)
    ensures Installed(v, v', level, in0, in1, o.outs)
  {
    var rest := Minus(v.levels[level + 1], in1);
    MinusIs(v.levels[level + 1], in1);
    assert AllStored(disk, v.levels[level + 1]);
    AllStoredMinus(disk, v.levels[level + 1], in1);
    DisjointBySmallest(disk, rest);
    OutputsAreNew(disk, next, v, level + 1, o, es);
    var files := MergeFiles(rest, o.outs);
    v' := Version(v.levels[level := Minus(v.levels[level], in0)][level + 1 := files]);
  }

  // ----- all of it -----

  lemma {:induction false} DeepIsSorted(disk: Disk, v: Version, level: nat)
    requires Ok(disk, v)
    ensures DeepLevelsSorted(v, level)
  {
    forall l | level + 2 <= l < KNumLevels
      ensures Disjoint(v.levels[l]) && Sane(v.levels[l])
    {
      LevelNoTwice(disk, v, l);
    }
  }

  /** A compaction of the files `inputs0` of a level. Version::Get answers every read from
      `ss` on as before, exactly when the inputs uncover nothing and none is overtaken. */
  method Compact(disk: Disk, next: nat, v: Version, level: nat, inputs0: seq<FileMeta>, ss: nat, policy: Policy)
    returns (disk': Disk, next': nat, v': Version, in0: seq<FileMeta>, in1: seq<FileMeta>, outs: seq<FileMeta>)
    requires Ok(disk, v) && level + 1 < KNumLevels && NumbersBelow(disk, next) && ss < KMaxSequenceNumber
    requires inputs0 != [] && Subset(inputs0, v.levels[level]) && NoTwice(inputs0) &&
             (level == 0 ==> ClosedSet(v.levels[0], inputs0))
    ensures Compacted(disk, disk', v, v', level, in0, in1, outs, ss) && Subset(inputs0, in0)
    ensures NumbersBelow(disk', next') && next <= next'
    ensures LevelsOk(disk', v')
    ensures SameFirst(Sets(disk, v), Sets(disk', v'), ss) <==>
            && (forall d, x :: !Uncovers(disk, v, level, in0, in1, ss, d, x))
            && (forall e, x :: !Overtakes(disk, v, level, in0, ss, e, x))
  {
    hide *;
    OkLevels(disk, v);
    LevelNoTwice(disk, v, level);
    LevelNoTwice(disk, v, level + 1);
    in0, in1 := SetupOtherInputs(level, v.levels[level], v.levels[level + 1], inputs0);
    ChosenParts(level, v.levels[level], v.levels[level + 1], in0, in1);
    PicksNoTwice(v.levels[level + 1], in0, in1);
    if in0 != inputs0 {
      ghost var w :| in0 == Overlapping(v.levels[level], w);
      OverlappingNoTwice(v.levels[level], w);
    }
    InputsMergeable(disk, v, level, in0, in1);
    var stream := Mergers.Drain(TablesOf(disk, in0 + in1));
    UnionIsMerged(disk, v, level, in0, in1, stream);
    MergedParts(disk, in0, in1, stream);
    var c := new Compaction(level, v);
    DeepIsSorted(disk, v, level);
    ReadyStart(c, stream);
    var o := DoCompactionWork(c, stream, ss, disk, next, policy);
    ghost var es := Survivors(v, level, stream, |stream|, ss);
    v' := Install(disk, next, v, level, in0, in1, o, es);
    WroteParts(disk, next, o, es);
    disk', next', outs := o.disk, o.next, o.outs;
    WorkGivesResult(disk, next, v, level, in0, in1, stream, o, ss);
    MakeCompacted(disk, disk', v, v', level, in0, in1, outs, ss);
    WorkReadsExactly(disk, next, v, v', level, in0, in1, stream, o, ss);
  }

  lemma {:induction false} OkLevels(disk: Disk, v: Version)
    requires Ok(disk, v)
    ensures |v.levels| == KNumLevels && forall l :: 1 <= l < KNumLevels ==> Disjoint(v.levels[l])
  {
  }

  lemma {:induction false} ChosenParts(level: nat, files0: seq<FileMeta>, files1: seq<FileMeta>, in0: seq<FileMeta>,
                                       in1: seq<FileMeta>)
    requires Chosen(level, files0, files1, in0, in1)
    ensures Fit(files0, files1, in0, in1) && Subset(in0, files0) && Subset(in1, files1)
  {
  }

  lemma {:induction false} PicksNoTwice(files1: seq<FileMeta>, in0: seq<FileMeta>, in1: seq<FileMeta>)
    requires Picks(files1, in0, in1) && NoTwice(files1)
    ensures NoTwice(in1)
  {
    var smallest, largest :| Encloses(in0, smallest, largest) &&
        in1 == Overlapping(files1, UserRange(smallest, largest));
    OverlappingNoTwice(files1, UserRange(smallest, largest));
  }

  lemma {:induction false} MergedParts(disk: Disk, in0: seq<FileMeta>, in1: seq<FileMeta>, stream: seq<Entry>)
    requires Merged(disk, in0, in1, stream)
    ensures Versioned(stream)
  {
  }

  lemma {:induction false} ReadyStart(c: Compaction, stream: seq<Entry>)
    requires forall k :: c.PassedOnly(k)
    ensures ReadyFrom(c, stream, 0)
  {
  }

  lemma {:induction false} WroteParts(disk: Disk, next: nat, o: Outputs, es: seq<Entry>)
    requires Wrote(disk, next, o, es)
    ensures NumbersBelow(o.disk, o.next) && next <= o.next
  {
  }

  lemma {:induction false} MakeCompacted(disk: Disk, disk': Disk, v: Version, v': Version, level: nat,
                                         in0: seq<FileMeta>, in1: seq<FileMeta>, outs: seq<FileMeta>, ss: nat)
    requires |v.levels| == KNumLevels && level + 1 < KNumLevels && Fit(v.levels[level], v.levels[level + 1], in0, in1)
    requires Result(disk, disk', v, level, in0, in1, outs, ss) && Installed(v, v', level, in0, in1, outs)
    ensures Compacted(disk, disk', v, v', level, in0, in1, outs, ss)
  {
  }

  // ----- a flush -----

  lemma {:induction false} LevelsForFlush(disk: Disk, v: Version)
    requires Ok(disk, v) && forall l :: 0 <= l < KNumLevels ==> SequencesFit(v.levels[l])
    ensures |v.levels| == KNumLevels
    ensures forall l :: 1 <= l < KNumLevels ==> Disjoint(v.levels[l]) && Sane(v.levels[l]) && SequencesFit(v.levels[l])
    ensures forall l :: 1 <= l < KNumLevels ==> LargestUp(v.levels[l])
    ensures forall l :: 1 <= l < KNumLevels ==> BySmallest(v.levels[l])
  {
    forall l | 1 <= l < KNumLevels
      ensures Sane(v.levels[l]) && BySmallest(v.levels[l])
      ensures LargestUp(v.levels[l])
    {
      assert AllStored(disk, v.levels[l]);
      LevelNoTwice(disk, v, l);
      LargestAscend(disk, v.levels[l]);
      DisjointBySmallest(disk, v.levels[l]);
    }
  }

  lemma {:induction false} NotInLevels(disk: Disk, next: nat, v: Version, l: nat, f: FileMeta)
    requires Ok(disk, v) && l < KNumLevels && NumbersBelow(disk, next) && f.number >= next
    ensures f !in v.levels[l]
  {
    forall g | g in v.levels[l] ensures g.number < next {
      var i :| 0 <= i < |v.levels[l]| && v.levels[l][i] == g;
      assert AllStored(disk, v.levels[l]) && Stored(disk, v.levels[l][i]);
    }
  }

  /** WriteLevel0Table and the edit that installs its table: the immutable memtable becomes
      a file at a level where it meets nothing. */
  method FlushTable(disk: Disk, next: nat, v: Version, es: seq<Entry>, size: nat) returns (disk': Disk, v': Version,
                    level: nat, f: FileMeta)
    requires Ok(disk, v) && NumbersBelow(disk, next) && BySmallest(v.levels[0]) && es != [] && Versioned(es)
    requires forall l :: 0 <= l < KNumLevels ==> SequencesFit(v.levels[l])
    ensures Flushed(disk, disk', v, v', level, f, es) && Allowed(v, level, f) && f.number == next
  {
    LevelsForFlush(disk, v);
    f := FileMeta(next, size, es[0].key, es[|es| - 1].key);
    disk' := disk[next := es];
    level := PickLevelForMemTableOutput(v, f.smallest.user, f.largest.user);
    NotInLevels(disk, next, v, level, f);
    hide SomeOverlaps, Ok, Disjoint, Sane, SequencesFit;
    var files := InsertFile(v.levels[level], f);
    v' := Version(v.levels[level := files]);
  }
}

/** Levels whose files do not share a user key. Inputs chosen there leave nothing older
    behind, and flushes and compactions keep the levels so as long as no output is cut
    between two versions of one user key. */
module UncutLevels {
  import opened Keys
  import opened Versions
  import opened Inputs
  import opened Compactions
  import opened LevelSets
  import opened CompactionSafety
  import opened Flushes

  /** No two files of the level share a user key. */
  ghost predicate UserDisjoint(files: seq<FileMeta>) {
    forall i, j :: 0 <= i < j < |files| ==> files[i].largest.user < files[j].smallest.user
  }

  /** If no file boundary splits a user key at the two levels, inputs chosen by
      SetupOtherInputs leave nothing older behind. At level 0 the choice itself
      sees to that. */
  lemma {:induction false} ChosenLeavesNothingOlder(disk: Disk, v: Version, level: nat, in0: seq<FileMeta>,
                                                    in1: seq<FileMeta>)
    requires Ok(disk, v) && level + 1 < KNumLevels
    requires Chosen(level, v.levels[level], v.levels[level + 1], in0, in1)
    requires level == 0 || UserDisjoint(v.levels[level])
    requires UserDisjoint(v.levels[level + 1])
    ensures NoOlderLeftBehind(disk, v, level, in0, in1)
  {
    var files0, files1 := v.levels[level], v.levels[level + 1];
    assert AllStored(disk, files0) && AllStored(disk, files1) && Newer(disk, files0, files1);
    forall x, e | (InLevel(disk, Minus(files0, in0), x) || InLevel(disk, Minus(files1, in1), x)) &&
    IsInput(disk, in0, in1, e)
                  && x.key.user == e.key.user
      ensures x.key.sequence > e.key.sequence
    {
      LevelSplit(disk, files0, in0, x);
      LevelSplit(disk, files0, in0, e);
      LevelSplit(disk, files1, in1, x);
      LevelSplit(disk, files1, in1, e);
      if InLevel(disk, Minus(files0, in0), x) {
        if InLevel(disk, in0, e) { ApartUsers(disk, files0, in0, level == 0, x, e); }
      } else if InLevel(disk, in1, e) {
        ApartUsers(disk, files1, in1, false, x, e);
      } else {
        ClearUsers(disk, files0, files1, in0, in1, x, e);
      }
    }
  }

  lemma {:induction false} ApartUsers(disk: Disk, files: seq<FileMeta>, xs: seq<FileMeta>, closed: bool, x: Entry,
                                      e: Entry)
    requires AllStored(disk, files) && Subset(xs, files)
    requires if closed then ClosedSet(files, xs) else UserDisjoint(files)
    requires InLevel(disk, Minus(files, xs), x) && InLevel(disk, xs, e)
    ensures x.key.user != e.key.user
  {
    MinusIs(files, xs);
    var rest := Minus(files, xs);
    var m :| 0 <= m < |rest| && InFile(disk, rest[m], x);
    var n :| 0 <= n < |xs| && InFile(disk, xs[n], e);
    assert rest[m] in rest && xs[n] in files;
    var i :| 0 <= i < |files| && files[i] == rest[m];
    var j :| 0 <= j < |files| && files[j] == xs[n];
    assert Stored(disk, files[i]) && Stored(disk, files[j]);
    InRange(disk, files[i], x);
    InRange(disk, files[j], e);
    assert files[i] !in xs;
  }

  lemma {:induction false} ClearUsers(disk: Disk, files0: seq<FileMeta>, files1: seq<FileMeta>, in0: seq<FileMeta>,
                                      in1: seq<FileMeta>, x: Entry, e: Entry)
    requires AllStored(disk, files0) && AllStored(disk, files1) && Subset(in0, files0) && Clear(files1, in0, in1)
    requires InLevel(disk, Minus(files1, in1), x) && InLevel(disk, in0, e)
    ensures x.key.user != e.key.user
  {
    MinusIs(files1, in1);
    var rest := Minus(files1, in1);
    var m :| 0 <= m < |rest| && InFile(disk, rest[m], x);
    var n :| 0 <= n < |in0| && InFile(disk, in0[n], e);
    assert rest[m] in rest && in0[n] in files0;
    var i :| 0 <= i < |files1| && files1[i] == rest[m];
    var j :| 0 <= j < |files0| && files0[j] == in0[n];
    assert Stored(disk, files1[i]) && Stored(disk, files0[j]);
    InRange(disk, files1[i], x);
    InRange(disk, files0[j], e);
    assert files1[i] !in in1;
  }

  // ----- kept -----

  predicate UserApart(f: FileMeta, g: FileMeta) {
    f.largest.user < g.smallest.user || g.largest.user < f.smallest.user
  }

  /** At the levels where files may not overlap. */
  ghost predicate Uncut(v: Version) {
    forall l :: 1 <= l < |v.levels| ==> UserDisjoint(v.levels[l])
  }

  lemma {:induction false} ApartIsUserDisjoint(disk: Disk, files: seq<FileMeta>)
    requires AllStored(disk, files) && BySmallest(files)
    requires forall i, j :: 0 <= i < j < |files| ==> UserApart(files[i], files[j])
    ensures UserDisjoint(files)
  {
    forall i, j | 0 <= i < j < |files| ensures files[i].largest.user < files[j].smallest.user {
      assert Stored(disk, files[i]) && Stored(disk, files[j]);
      InRange(disk, files[i], disk[files[i].number][0]);
      InRange(disk, files[j], disk[files[j].number][0]);
      assert UserApart(files[i], files[j]);
    }
  }

  lemma {:induction false} InUserDisjoint(files: seq<FileMeta>, f: FileMeta, g: FileMeta)
    requires UserDisjoint(files) && f in files && g in files && f != g
    ensures UserApart(f, g)
  {
    var i :| 0 <= i < |files| && files[i] == f;
    var j :| 0 <= j < |files| && files[j] == g;
  }

  lemma {:induction false} UserDisjointMinus(files: seq<FileMeta>, gone: seq<FileMeta>)
    requires UserDisjoint(files)
    ensures UserDisjoint(Minus(files, gone))
  {
    if files != [] {
      var init, last := files[..|files| - 1], files[|files| - 1];
      UserDisjointMinus(init, gone);
      MinusIs(init, gone);
      var rest := Minus(init, gone);
      forall i | 0 <= i < |rest| ensures rest[i].largest.user < last.smallest.user {
        assert rest[i] in init;
      }
    }
  }

  lemma {:induction false} FlushKeepsUncut(disk: Disk, disk': Disk, v: Version, v': Version, level: nat, f: FileMeta,
                                           es: seq<Entry>)
    requires Ok(disk, v) && Flushed(disk, disk', v, v', level, f, es) && Allowed(v, level, f) && Uncut(v)
    ensures Uncut(v')
  {
    FlushedSets(disk, disk', v, v', level, f, es);
    if level > 0 {
      var files, files' := v.levels[level], v'.levels[level];
      forall g | g in files ensures UserApart(f, g) {
        var i :| 0 <= i < |files| && files[i] == g;
        assert !Overlaps(files[i], Range(At(f.smallest.user), At(f.largest.user)));
      }
      forall i, j | 0 <= i < j < |files'| ensures UserApart(files'[i], files'[j]) {
        assert files'[i] in files' && files'[j] in files';
        if files'[i] != f && files'[j] != f { InUserDisjoint(files, files'[i], files'[j]); }
      }
      ApartIsUserDisjoint(disk', files');
    }
  }

  /** A file left behind in the output level shares no user key with any input, and so
      with no output. */
  lemma {:induction false} OutputUserApart(disk: Disk, disk': Disk, files1: seq<FileMeta>, in0: seq<FileMeta>,
                                           in1: seq<FileMeta>, f: FileMeta, g: FileMeta)
    requires AllStored(disk, in0) && AllStored(disk, in1) && Stored(disk', f)
    requires UserDisjoint(files1) && Subset(in1, files1) && OneSided(files1, in0, in1) && Clear(files1, in0, in1)
    requires g in files1 && g !in in1 && g.smallest.user <= g.largest.user
    requires forall e :: InFile(disk', f, e) ==> IsInput(disk, in0, in1, e)
    ensures UserApart(f, g)
  {
    var es, all := disk'[f.number], in0 + in1;
    var first, last := es[0], es[|es| - 1];
    assert InFile(disk', f, first) && InFile(disk', f, last);
    var a := InputFile(disk, in0, in1, first);
    var b := InputFile(disk, in0, in1, last);
    InputUserApart(disk, files1, in0, in1, g, a);
    InputUserApart(disk, files1, in0, in1, g, b);
    var n :| 0 <= n < |files1| && files1[n] == g;
    assert Apart(g, all);
  }

  lemma {:induction false} InputUserApart(disk: Disk, files1: seq<FileMeta>, in0: seq<FileMeta>, in1: seq<FileMeta>,
                                          g: FileMeta, a: nat)
    requires UserDisjoint(files1) && Subset(in1, files1) && Clear(files1, in0, in1) && AllStored(disk, in0) &&
             AllStored(disk, in1)
    requires g in files1 && g !in in1 && a < |in0 + in1|
    ensures UserApart((in0 + in1)[a], g) && (in0 + in1)[a].smallest.user <= (in0 + in1)[a].largest.user
  {
    var h := (in0 + in1)[a];
    var n :| 0 <= n < |files1| && files1[n] == g;
    if a < |in0| {
      assert Stored(disk, in0[a]);
      InRange(disk, h, disk[h.number][0]);
    } else {
      assert Stored(disk, in1[a - |in0|]) && in1[a - |in0|] == h;
      InRange(disk, h, disk[h.number][0]);
      InUserDisjoint(files1, h, g);
    }
  }

  lemma {:induction false} CompactionKeepsUncut(disk: Disk, disk': Disk, v: Version, v': Version, level: nat,
                                                in0: seq<FileMeta>, in1: seq<FileMeta>, outs: seq<FileMeta>, ss: nat)
    requires Ok(disk, v) && Compacted(disk, disk', v, v', level, in0, in1, outs, ss) && Uncut(v) && UserDisjoint(outs)
    ensures Uncut(v')
  {
    var files1, files, rest := v.levels[level + 1], v'.levels[level + 1], Minus(v.levels[level + 1], in1);
    InstalledSets(disk, disk', v, v', level, in0, in1, outs, ss);
    SubsetStored(disk, v.levels[level], in0);
    SubsetStored(disk, files1, in1);
    MinusIs(files1, in1);
    UserDisjointMinus(v.levels[level + 1], in1);
    if level > 0 { UserDisjointMinus(v.levels[level], in0); }
    forall i, j | 0 <= i < j < |files| ensures UserApart(files[i], files[j]) {
      assert files[i] in files && files[j] in files;
      OutputPair(disk, disk', files1, in0, in1, outs, files[i], files[j]);
    }
    ApartIsUserDisjoint(disk', files);
  }

  lemma {:induction false} OutputPair(disk: Disk, disk': Disk, files1: seq<FileMeta>, in0: seq<FileMeta>,
                                      in1: seq<FileMeta>, outs: seq<FileMeta>, f: FileMeta, g: FileMeta)
    requires AllStored(disk, files1) && AllStored(disk, in0) && AllStored(disk, in1) && AllStored(disk', outs)
    requires UserDisjoint(files1) && Subset(in1, files1) && OneSided(files1, in0, in1) && Clear(files1, in0, in1) &&
             UserDisjoint(outs)
    requires forall e :: InLevel(disk', outs, e) ==> IsInput(disk, in0, in1, e)
    requires (f in outs || (f in files1 && f !in in1)) && (g in outs || (g in files1 && g !in in1)) && f != g
    ensures UserApart(f, g)
  {
    if f in outs && g in outs {
      InUserDisjoint(outs, f, g);
    } else if f in files1 && f !in in1 && g in files1 && g !in in1 {
      InUserDisjoint(files1, f, g);
    } else {
      var o, r := if f in outs then f else g, if f in outs then g else f;
      var n :| 0 <= n < |outs| && outs[n] == o;
      var m :| 0 <= m < |files1| && files1[m] == r;
      assert Stored(disk', outs[n]) && Stored(disk, files1[m]);
      InRange(disk, r, disk[r.number][0]);
      forall e | InFile(disk', o, e) ensures IsInput(disk, in0, in1, e) { InMember(disk', outs, o, e); }
      OutputUserApart(disk, disk', files1, in0, in1, o, r);
    }
  }
}

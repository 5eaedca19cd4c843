/** What happens when compaction inputs are not closed under user keys: outputs may be
    cut between two versions of one user key, and a later compaction may then pick up
    only one of the two files. */
module BoundaryFiles {
  import opened Keys
  import opened Versions
  import opened Inputs
  import opened Compactions
  import opened LevelSets
  import opened LevelReads
  import opened CompactionSafety

  // ----- a compaction that brings a deleted value back -----

  /** Level 1 holds a newer version of key 1; level 2 holds two files that meet
      inside key 2, its deletion in the first and the deleted value in the second. */
  function Put(k: UserKey, s: nat, v: Bytes): Entry { Entry(InternalKey(k, s, Value), v) }
  function Del(k: UserKey, s: nat): Entry { Entry(InternalKey(k, s, Deletion), []) }
  function Meta(n: nat, es: seq<Entry>): FileMeta
    requires es != []
  {
    FileMeta(n, 100, es[0].key, es[|es| - 1].key)
  }

  const T1 := [Put(1.0, 20, [7])]
  const T2 := [Put(1.0, 10, [6]), Del(2.0, 9)]
  const T3 := [Put(2.0, 5, [5])]
  const F1 := Meta(1, T1)
  const F2 := Meta(2, T2)
  const F3 := Meta(3, T3)
  const F4 := Meta(4, T1)
  const D: Disk := map[1 := T1, 2 := T2, 3 := T3]
  const D': Disk := D[4 := T1]
  const V := Version([[], [F1], [F2, F3], [], [], [], []])
  const V' := Version([[], [], [F4, F3], [], [], [], []])

  lemma {:induction false} ExampleOk()
    ensures Ok(D, V)
  {
    forall l | 0 <= l < KNumLevels ensures AllStored(D, V.levels[l]) && (l >= 1 ==> Disjoint(V.levels[l])) {}
    forall e ensures InLevel(D, [F1], e) ==> e in T1 {}
    forall e ensures InLevel(D, [F2, F3], e) ==> e in T2 || e in T3 {}
  }

  const Stream := [T1[0], T2[0], T2[1]]

  lemma {:induction false} ExampleFiles(e: Entry)
    ensures InLevel(D, [F1], e) <==> e == T1[0]
    ensures InLevel(D, [F2], e) <==> e == T2[0] || e == T2[1]
    ensures InLevel(D', [F4], e) <==> e == T1[0]
    ensures InVersion(D, V, e) <==> e in Stream || e == T3[0]
    ensures InVersion(D', V', e) <==> e == T1[0] || e == T3[0]
  {
    assert InLevel(D, [F1], e) <==> InFile(D, [F1][0], e);
    assert InLevel(D, [F2], e) <==> InFile(D, [F2][0], e);
    assert InLevel(D', [F4], e) <==> InFile(D', [F4][0], e);
    assert InLevel(D, [F2, F3], e) <==> InFile(D, [F2, F3][0], e) || InFile(D, [F2, F3][1], e);
    assert InLevel(D', [F4, F3], e) <==> InFile(D', [F4, F3][0], e) || InFile(D', [F4, F3][1], e);
    assert InVersion(D, V, e) <==> InLevel(D, V.levels[1], e) || InLevel(D, V.levels[2], e);
    assert InVersion(D', V', e) <==> InLevel(D', V'.levels[2], e);
  }

  lemma {:induction false} ExamplePicks()
    ensures Picks(V.levels[2], [F1], [F2])
    ensures Chosen(1, V.levels[1], V.levels[2], [F1], [F2])
  {
    var k := F1.smallest;
    var r := UserRange(k, k);
    assert Encloses([F1], k, k) by { assert [F1][0].smallest == k && [F1][0].largest == k; }
    calc {
      Overlapping([F2, F3], r);
      { assert [F2, F3][..1] == [F2] && !Overlaps(F3, r); }
      Overlapping([F2], r);
      { assert [F2][..0] == [] && Overlaps(F2, r); }
      [F2];
    }
    OverlapIsOneSided([F2, F3], [F1], k, k);
  }

  /** What the drop rules leave of the merged inputs at snapshot 20. */
  lemma {:induction false} ExampleSurvivors()
    ensures Merged(D, [F1], [F2], Stream)
    ensures Survivors(V, 1, Stream, 3, 20) == T1
  {
    forall e ensures e in Stream <==> IsInput(D, [F1], [F2], e) { ExampleFiles(e); }
    assert Hidden(Stream, 1, 20) by { assert Stream[0].key.user == Stream[1].key.user; }
    assert !Hidden(Stream, 0, 20) && !Hidden(Stream, 2, 20);
    assert Obsolete(V, 1, Stream[2], 20);
    assert Survivors(V, 1, Stream, 1, 20) == T1;
    assert Survivors(V, 1, Stream, 2, 20) == T1;
  }

  lemma {:induction false} ExampleInstalled()
    ensures Installed(V, V', 1, [F1], [F2], [F4])
    ensures Minus(V.levels[1], [F1]) == [] && Minus(V.levels[2], [F2]) == [F3]
  {
    assert Minus([F1], [F1]) == [];
    calc {
      Minus([F2, F3], [F2]);
      { assert [F2, F3][..1] == [F2] && F3 !in [F2]; }
      Minus([F2], [F2]) + [F3];
      [F3];
    }
  }

  lemma {:induction false} ExampleCompacted()
    ensures Compacted(D, D', V, V', 1, [F1], [F2], [F4], 20)
  {
    ExamplePicks();
    ExampleSurvivors();
    ExampleInstalled();
    var o := Outputs([F4], D', 5, 4, []);
    assert Concat(D', [F4]) == T1 by { assert [F4][..0] == []; }
    WorkGivesResult(D, 4, V, 1, [F1], [F2], Stream, o, 20);
  }

  lemma {:induction false} ExampleReads()
    ensures Answers(Contents(D, V), 2.0, 20, NotFound) && Answers(Contents(D', V'), 2.0, 20, Found(T3[0].value))
  {
    forall e ensures InVersion(D, V, e) <==> e in Stream || e == T3[0] { ExampleFiles(e); }
    forall e ensures InVersion(D', V', e) <==> e == T1[0] || e == T3[0] { ExampleFiles(e); }
    assert IsNewest(Contents(D, V), 2.0, 20, T2[1]);
    assert IsNewest(Contents(D', V'), 2.0, 20, T3[0]);
  }

  lemma {:induction false} ExampleAfterOk()
    ensures Ok(D', V')
  {
    forall l | 0 <= l < KNumLevels ensures AllStored(D', V'.levels[l]) && (l >= 1 ==> Disjoint(V'.levels[l])) {}
    forall l, m | 0 <= l < m < KNumLevels ensures Newer(D', V'.levels[l], V'.levels[m]) {
      forall e ensures !InLevel(D', [], e) {}
    }
  }

  /** What Version::Get answers, level by level. */
  lemma {:induction false} ReadAsGet(disk: Disk, v: Version, k: UserKey, s: nat, r: Answer)
    requires Ok(disk, v) && Answers(Contents(disk, v), k, s, r)
    ensures FirstAnswers(Sets(disk, v), k, s, r)
  {
    hide *;
    OkIsUnique(disk, v);
    SetsAreContents(disk, v);
    FirstIsNewest(Sets(disk, v), k, s, r);
  }

  lemma {:induction false} ExampleUncovers()
    ensures Uncovers(D, V, 1, [F1], [F2], 20, T2[1], T3[0])
  {
    ExampleInstalled();
    forall e
      ensures (InVersion(D, V, e) <==> e in Stream || e == T3[0]) && (IsInput(D, [F1], [F2], e) <==> e in Stream)
    {
      ExampleFiles(e);
    }
    forall e ensures IsLeft(D, V, 1, [F1], [F2], e) <==> e == T3[0] {
      assert InLevel(D, [F3], e) <==> InFile(D, [F3][0], e);
      assert !InLevel(D, [], e);
    }
    assert T2[1] == Stream[2];
  }

  /** The inputs are those SetupOtherInputs picks for file 1, the output is what the
      drop rules leave, and a read of key 2 at the latest sequence number, which
      found nothing before, finds the deleted value afterwards. */
  lemma {:induction false} SplitKeyResurrects()
    ensures Ok(D, V) && Ok(D', V')
    ensures Picks(V.levels[2], [F1], [F2]) && Compacted(D, D', V, V', 1, [F1], [F2], [F4], 20)
    ensures Uncovers(D, V, 1, [F1], [F2], 20, T2[1], T3[0])
    ensures D'[F4.number] == Survivors(V, 1, Stream, 3, 20) && Merged(D, [F1], [F2], Stream)
    ensures Answers(Contents(D, V), 2.0, 20, NotFound) && Answers(Contents(D', V'), 2.0, 20, Found(T3[0].value))
    ensures FirstAnswers(Sets(D, V), 2.0, 20, NotFound) && FirstAnswers(Sets(D', V'), 2.0, 20, Found(T3[0].value))
  {
    ExampleOk();
    ExampleAfterOk();
    ExamplePicks();
    ExampleSurvivors();
    ExampleCompacted();
    ExampleReads();
    ExampleUncovers();
    hide Ok, Picks, Compacted, Uncovers, Survivors, Merged, FirstAnswers, Answers, Contents, Sets;
    ReadAsGet(D, V, 2.0, 20, NotFound);
    ReadAsGet(D', V', 2.0, 20, Found(T3[0].value));
  }

  // ----- a move that brings an overwritten value back -----

  /** Two versions of key 2, the newer in the first of two files at level 1. */
  const S1 := [Put(2.0, 10, [1])]
  const S2 := [Put(2.0, 5, [2])]
  const SA := Meta(1, S1)
  const SB := Meta(2, S2)
  const SD: Disk := map[1 := S1, 2 := S2]
  const SV := Version([[], [SA, SB], [], [], [], [], []])
  const SV' := Version([[], [SB], [SA], [], [], [], []])

  lemma {:induction false} StaleFiles(e: Entry)
    ensures InLevel(SD, [SA], e) <==> e == S1[0]
    ensures InLevel(SD, [SB], e) <==> e == S2[0]
    ensures InLevel(SD, [SA, SB], e) <==> e == S1[0] || e == S2[0]
    ensures !InLevel(SD, [], e)
  {
    assert InLevel(SD, [SA], e) <==> InFile(SD, [SA][0], e);
    assert InLevel(SD, [SB], e) <==> InFile(SD, [SB][0], e);
    assert InLevel(SD, [SA, SB], e) <==> InFile(SD, [SA, SB][0], e) || InFile(SD, [SA, SB][1], e);
  }

  lemma {:induction false} StaleOk()
    ensures Ok(SD, SV)
  {
    forall l | 0 <= l < KNumLevels ensures AllStored(SD, SV.levels[l]) && (l >= 1 ==> Disjoint(SV.levels[l])) {}
    forall l, m | 0 <= l < m < KNumLevels ensures Newer(SD, SV.levels[l], SV.levels[m]) {
      forall e ensures !(InLevel(SD, SV.levels[l], e)) || l == 1 { StaleFiles(e); }
      forall e ensures !(InLevel(SD, SV.levels[m], e)) || m == 1 { StaleFiles(e); }
    }
  }

  lemma {:induction false} StalePicks()
    ensures Picks(SV.levels[2], [SA], []) && Chosen(1, SV.levels[1], SV.levels[2], [SA], [])
    ensures Installed(SV, SV', 1, [SA], [], [SA]) && Minus(SV.levels[1], [SA]) == [SB] && Minus(SV.levels[2], []) == []
  {
    var k := SA.smallest;
    assert Encloses([SA], k, k) by { assert [SA][0].smallest == k && [SA][0].largest == k; }
    assert Overlapping([], UserRange(k, k)) == [];
    calc {
      Minus([SA, SB], [SA]);
      { assert [SA, SB][..1] == [SA] && SB !in [SA]; }
      Minus([SA], [SA]) + [SB];
      { assert [SA][..0] == []; }
      [SB];
    }
  }

  lemma {:induction false} StaleSets()
    ensures LevelSet(SD, []) == iset{} && LevelSet(SD, [SA]) == iset{S1[0]} && LevelSet(SD, [SB]) == iset{S2[0]}
    ensures LevelSet(SD, [SA, SB]) == iset{S1[0], S2[0]}
  {
    hide InLevel;
    forall e
      ensures InLevel(SD, [SA], e) <==> e == S1[0]
      ensures InLevel(SD, [SB], e) <==> e == S2[0]
      ensures InLevel(SD, [SA, SB], e) <==> e == S1[0] || e == S2[0]
      ensures !InLevel(SD, [], e)
    {
      StaleFiles(e);
    }
  }

  lemma {:induction false} StaleReads()
    ensures FirstAnswers(Sets(SD, SV), 2.0, 20, Found([1])) && FirstAnswers(Sets(SD, SV'), 2.0, 20, Found([2]))
  {
    var a, b := Sets(SD, SV), Sets(SD, SV');
    StaleSets();
    assert a[0] == b[0] == iset{} && a[1] == iset{S1[0], S2[0]} && b[1] == iset{S2[0]};
    hide LevelSet, Sets, InLevel, FirstAnswers;
    assert IsNewest(a[1], 2.0, 20, S1[0]);
    assert IsNewest(b[1], 2.0, 20, S2[0]);
    FirstFold(a, 2.0, 20, 1, S1[0]);
    FirstFold(b, 2.0, 20, 1, S2[0]);
  }

  lemma {:induction false} StaleNotNewer()
    ensures !Newer(SD, SV'.levels[1], SV'.levels[2])
  {
    StaleFiles(S1[0]);
    StaleFiles(S2[0]);
  }

  lemma {:induction false} StaleOvertakes()
    ensures Overtakes(SD, SV, 1, [SA], 20, S1[0], S2[0])
    ensures forall d, x :: !Uncovers(SD, SV, 1, [SA], [], 20, d, x)
  {
    StalePicks();
    forall e
      ensures InLevel(SD, [SA], e) <==> e == S1[0]
      ensures InLevel(SD, [SB], e) <==> e == S2[0]
      ensures !InLevel(SD, [], e)
      ensures InVersion(SD, SV, e) ==> e == S1[0] || e == S2[0]
    {
      StaleFiles(e);
      if InVersion(SD, SV, e) {
        var l :| 0 <= l < |SV.levels| && InLevel(SD, SV.levels[l], e);
      }
    }
  }

  /** The file with the newer version is picked alone, for it meets nothing below, and is
      handed down. Nothing is uncovered, and still a read of key 2, which found the newer
      value, finds the overwritten one afterwards: it is at the shallower level. */
  lemma {:induction false} OverwrittenValueReturns()
    ensures Ok(SD, SV) && Picks(SV.levels[2], [SA], []) && Chosen(1, SV.levels[1], SV.levels[2], [SA], [])
    ensures Installed(SV, SV', 1, [SA], [], [SA]) && LevelsOk(SD, SV') && !Ok(SD, SV')
    ensures Overtakes(SD, SV, 1, [SA], 20, S1[0], S2[0]) && forall d, x :: !Uncovers(SD, SV, 1, [SA], [], 20, d, x)
    ensures FirstAnswers(Sets(SD, SV), 2.0, 20, Found([1])) && FirstAnswers(Sets(SD, SV'), 2.0, 20, Found([2]))
  {
    StaleOk();
    StalePicks();
    StaleReads();
    StaleNotNewer();
    StaleOvertakes();
    hide FirstAnswers, Overtakes, Uncovers, Sets, LevelsOk, Chosen, Picks, Newer;
    MoveReadsExactly(SD, SV, SV', 1, SA);
  }
}

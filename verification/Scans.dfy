/** The iterator a user gets (db/db_impl.cc NewIterator, NewInternalIterator): DBIter over a
    merging iterator over the memtables and the files of the version. In a reachable state
    it shows the map that the writes so far make. */
module Scans {
  import opened Keys
  import opened Versions
  import opened Compactions
  import opened LevelSets
  import opened CompactionSafety
  import opened Database
  import opened Cursors
  import CompactionRuns
  import DbIterators
  import Mergers

  // ----- the children of the merging iterator -----

  /** A level other than 0 is one child: its tables end to end. */
  function DeepLists(disk: Disk, v: Version): (lists: seq<seq<Entry>>)
    requires |v.levels| == KNumLevels
    ensures |lists| == KNumLevels - 1
  {
    seq(KNumLevels - 1, l requires 0 <= l < KNumLevels - 1 => Concat(disk, v.levels[l + 1]))
  }

  function FileLists(disk: Disk, v: Version): seq<seq<Entry>>
    requires |v.levels| == KNumLevels
  {
    CompactionRuns.TablesOf(disk, v.levels[0]) + DeepLists(disk, v)
  }

  function MemLists(db: Db): seq<seq<Entry>> {
    [db.mem] + if db.imm.Imm? then [db.imm.entries] else []
  }

  /** Memtable, immutable memtable, every table of level 0, and the deeper levels. */
  function Children(db: Db): seq<seq<Entry>>
    requires |db.version.levels| == KNumLevels
  {
    MemLists(db) + FileLists(db.disk, db.version)
  }

  ghost predicate Apart(a: seq<seq<Entry>>, b: seq<seq<Entry>>) {
    forall x, y :: Mergers.InSome(a, x) && Mergers.InSome(b, y) ==> x.key != y.key
  }

  lemma {:induction false} InEither(a: seq<seq<Entry>>, b: seq<seq<Entry>>, e: Entry)
    ensures Mergers.InSome(a + b, e) <==> Mergers.InSome(a, e) || Mergers.InSome(b, e)
  {
    if Mergers.InSome(a, e) {
      var i :| 0 <= i < |a| && e in a[i];
      assert e in (a + b)[i];
    }
    if Mergers.InSome(b, e) {
      var i :| 0 <= i < |b| && e in b[i];
      assert e in (a + b)[|a| + i];
    }
  }

  lemma {:induction false} MergeBoth(a: seq<seq<Entry>>, b: seq<seq<Entry>>)
    requires Mergers.Mergeable(a) && Mergers.Mergeable(b) && Apart(a, b)
    ensures Mergers.Mergeable(a + b)
  {
    var lists := a + b;
    forall i, j | 0 <= i < j < |lists| ensures Mergers.NoSharedKey(lists[i], lists[j]) {
      if i < |a| && j >= |a| {
        assert lists[i] == a[i] && lists[j] == b[j - |a|];
        forall x, y | x in a[i] && y in b[j - |a|] ensures x.key != y.key {
          assert Mergers.InSome(a, x) && Mergers.InSome(b, y);
        }
      } else if j < |a| {
        assert lists[i] == a[i] && lists[j] == a[j];
      } else {
        assert lists[i] == b[i - |a|] && lists[j] == b[j - |a|];
      }
    }
  }

  // ----- the files -----

  lemma {:induction false} ConcatVersioned(disk: Disk, files: seq<FileMeta>)
    requires AllStored(disk, files) && Disjoint(files)
    ensures Versioned(Concat(disk, files)) && forall e :: e in Concat(disk, files) <==> InLevel(disk, files, e)
  {
    forall i | 0 <= i < |files| ensures files[i].number in disk { assert Stored(disk, files[i]); }
    ConcatMembers(disk, files);
    if files != [] {
      var init, f := files[..|files| - 1], files[|files| - 1];
      forall i | 0 <= i < |init| ensures Stored(disk, init[i]) { assert init[i] == files[i] && Stored(disk, files[i]); }
      ConcatVersioned(disk, init);
      assert Stored(disk, f);
      var front, back := Concat(disk, init), disk[f.number];
      forall a, b | a in front && b in back ensures Precedes(a.key, b.key) {
        var i :| 0 <= i < |init| && InFile(disk, init[i], a);
        InRange(disk, init[i], a);
        InRange(disk, f, b);
        assert Precedes(files[i].largest, f.smallest);
      }
      VersionedJoin(front, back);
    }
  }

  lemma {:induction false} VersionedJoin(front: seq<Entry>, back: seq<Entry>)
    requires Versioned(front) && Versioned(back) && forall a, b :: a in front && b in back ==> Precedes(a.key, b.key)
    ensures Versioned(front + back)
  {
    var all := front + back;
    forall i, j | 0 <= i < j < |all| ensures Precedes(all[i].key, all[j].key) {
      if i < |front| && j >= |front| { assert all[i] in front && all[j] in back; }
    }
  }

  lemma {:induction false} TablesAre(disk: Disk, files: seq<FileMeta>, e: Entry)
    ensures Mergers.InSome(CompactionRuns.TablesOf(disk, files), e) <==> InLevel(disk, files, e)
  {
    var lists := CompactionRuns.TablesOf(disk, files);
    if Mergers.InSome(lists, e) {
      var i :| 0 <= i < |lists| && e in lists[i];
      assert InFile(disk, files[i], e);
    }
    if InLevel(disk, files, e) {
      var i :| 0 <= i < |files| && InFile(disk, files[i], e);
      assert e in lists[i];
    }
  }

  lemma {:induction false} TablesMerge(disk: Disk, files: seq<FileMeta>)
    requires AllStored(disk, files) && NumberedByAge(disk, files)
    ensures Mergers.Mergeable(CompactionRuns.TablesOf(disk, files))
  {
    var lists := CompactionRuns.TablesOf(disk, files);
    forall i | 0 <= i < |lists| ensures Sorted(lists[i]) {
      assert Stored(disk, files[i]);
      CompactionRuns.SortedTable(lists[i]);
    }
    forall i, j | 0 <= i < j < |lists| ensures Mergers.NoSharedKey(lists[i], lists[j]) {
      assert files[i].number != files[j].number;
      assert NewerFile(disk, files[i], files[j]) || NewerFile(disk, files[j], files[i]);
      forall x: Entry, y: Entry | x in lists[i] && y in lists[j] ensures x.key != y.key {
        assert InFile(disk, files[i], x) && InFile(disk, files[j], y);
      }
    }
  }

  lemma {:induction false} DeepAre(disk: Disk, v: Version, l: nat)
    requires LevelsOk(disk, v) && l < KNumLevels - 1
    ensures Sorted(DeepLists(disk, v)[l])
    ensures forall e :: e in DeepLists(disk, v)[l] <==> InLevel(disk, v.levels[l + 1], e)
  {
    ConcatVersioned(disk, v.levels[l + 1]);
    CompactionRuns.SortedTable(Concat(disk, v.levels[l + 1]));
  }

  lemma {:induction false} DeepMerge(disk: Disk, v: Version)
    requires Ok(disk, v)
    ensures Mergers.Mergeable(DeepLists(disk, v))
  {
    var lists := DeepLists(disk, v);
    hide Concat, LevelsOk, InLevel;
    forall l | 0 <= l < |lists| ensures Sorted(lists[l]) { DeepAre(disk, v, l); }
    forall l, m | 0 <= l < m < |lists| ensures Mergers.NoSharedKey(lists[l], lists[m]) {
      DeepAre(disk, v, l);
      DeepAre(disk, v, m);
      assert Newer(disk, v.levels[l + 1], v.levels[m + 1]);
    }
  }

  lemma {:induction false} InDeep(disk: Disk, v: Version, e: Entry)
    requires Ok(disk, v)
    ensures Mergers.InSome(DeepLists(disk, v), e) <==> exists l :: 1 <= l < KNumLevels && InLevel(disk, v.levels[l], e)
  {
    var lists := DeepLists(disk, v);
    hide Concat, LevelsOk, InLevel;
    if Mergers.InSome(lists, e) {
      var l :| 0 <= l < |lists| && e in lists[l];
      DeepAre(disk, v, l);
      assert InLevel(disk, v.levels[l + 1], e);
    }
    if l :| 1 <= l < KNumLevels && InLevel(disk, v.levels[l], e) {
      DeepAre(disk, v, l - 1);
      assert e in lists[l - 1];
    }
  }

  lemma {:induction false} FilesMerge(disk: Disk, v: Version)
    requires Ok(disk, v)
    ensures Mergers.Mergeable(FileLists(disk, v))
    ensures forall e :: Mergers.InSome(FileLists(disk, v), e) <==> InVersion(disk, v, e)
  {
    var a, b := CompactionRuns.TablesOf(disk, v.levels[0]), DeepLists(disk, v);
    TablesMerge(disk, v.levels[0]);
    DeepMerge(disk, v);
    hide DeepLists, CompactionRuns.TablesOf, InLevel, LevelsOk, Mergers.Mergeable, Mergers.InSome;
    forall x: Entry, y: Entry | Mergers.InSome(a, x) && Mergers.InSome(b, y) ensures x.key != y.key {
      TablesAre(disk, v.levels[0], x);
      InDeep(disk, v, y);
      var l :| 1 <= l < KNumLevels && InLevel(disk, v.levels[l], y);
      assert Newer(disk, v.levels[0], v.levels[l]);
    }
    MergeBoth(a, b);
    forall e ensures Mergers.InSome(FileLists(disk, v), e) <==> InVersion(disk, v, e) {
      InEither(a, b, e);
      TablesAre(disk, v.levels[0], e);
      InDeep(disk, v, e);
    }
  }

  // ----- all of it -----

  lemma {:induction false} MemMerge(db: Db)
    requires Versioned(db.mem) && (db.imm.Imm? ==> Versioned(db.imm.entries)) && Tiers(db)
    ensures Mergers.Mergeable(MemLists(db))
    ensures forall e :: Mergers.InSome(MemLists(db), e) <==> e in Elements(db.mem) + ImmSet(db.imm)
  {
    var lists := MemLists(db);
    forall i | 0 <= i < |lists| ensures Sorted(lists[i]) { CompactionRuns.SortedTable(lists[i]); }
    if db.imm.Imm? {
      forall x: Entry, y: Entry | x in lists[0] && y in lists[1] ensures x.key != y.key {
        assert x in Elements(db.mem) && y in ImmSet(db.imm);
      }
    }
    forall e ensures Mergers.InSome(lists, e) <==> e in Elements(db.mem) + ImmSet(db.imm) {
      if e in db.mem { assert e in lists[0]; }
      if db.imm.Imm? && e in db.imm.entries { assert e in lists[1]; }
    }
  }

  lemma {:induction false} ChildrenMerge(db: Db)
    requires Shape(db)
    ensures Mergers.Mergeable(Children(db)) && forall e :: Mergers.InSome(Children(db), e) <==> e in Stock(db)
  {
    var a, b := MemLists(db), FileLists(db.disk, db.version);
    MemMerge(db);
    FilesMerge(db.disk, db.version);
    hide MemLists, FileLists, Ok, InVersion, Mergers.Mergeable, Mergers.InSome;
    assert Tiers(db);
    forall x: Entry, y: Entry | Mergers.InSome(a, x) && Mergers.InSome(b, y) ensures x.key != y.key {
      assert y in Contents(db.disk, db.version);
    }
    MergeBoth(a, b);
    forall e ensures Mergers.InSome(Children(db), e) <==> e in Stock(db) { InEither(a, b, e); }
  }

  /** The internal iterator runs over what the store holds, in order, each version once. */
  lemma {:induction false} UnionIsStock(db: Db)
    requires Shape(db) && Unique(Stock(db))
    ensures Mergers.Mergeable(Children(db))
    ensures Versioned(Mergers.Union(Children(db))) && Elements(Mergers.Union(Children(db))) == Stock(db)
  {
    ChildrenMerge(db);
    Mergers.UnionIsUnion(Children(db));
    var all := Mergers.Union(Children(db));
    hide Shape, Children, Stock, Mergers.Mergeable, Mergers.Union, Mergers.InSome;
    forall i, j | 0 <= i < j < |all| ensures Precedes(all[i].key, all[j].key) {
      assert all[i] in all && all[j] in all;
      assert Before(all[i].key, all[j].key);
    }
  }

  /** What a scan at sequence number `s` shows. */
  ghost function ShownAt(db: Db, s: nat): seq<Entry>
    requires |db.version.levels| == KNumLevels
  {
    DbIterators.Shown(Mergers.Union(Children(db)), s)
  }

  lemma {:induction false} LiveState(states: seq<State>, steps: seq<Step>, n: nat)
    requires ClosedRun(states, steps) && n < |states|
    ensures Shape(states[n].db) && Unique(Stock(states[n].db)) && |states[n].db.version.levels| == KNumLevels
  {
    RunInv(states, steps, n);
    hide ClosedRun;
  }

  /** In every state of a closed run, a scan at a live snapshot or at the latest number shows
      each user key once, in ascending order, and with it exactly the value that the newest
      write of the key it may see has put. */
  lemma {:induction false} ScanShowsHistory(states: seq<State>, steps: seq<Step>, n: nat, s: nat, k: UserKey, v: Bytes)
    requires ClosedRun(states, steps) && n < |states| && Live(states[n].db, s)
    ensures |states[n].db.version.levels| == KNumLevels
    ensures forall c, d :: 0 <= c < d < |ShownAt(states[n].db, s)| ==>
              ShownAt(states[n].db, s)[c].key.user < ShownAt(states[n].db, s)[d].key.user
    ensures (exists e :: e in ShownAt(states[n].db, s) && e.key.user == k && e.value == v)
            <==> Answers(states[n].history, k, s, Found(v))
  {
    hide *;
    LiveState(states, steps, n);
    var db := states[n].db;
    UnionIsStock(db);
    DbIterators.ShowsTheMap(Mergers.Union(Children(db)), s, k, v);
    ReadsFollowHistory(states, steps, n, k, s, Found(v));
    ShownAtIs(db, s);
  }

  lemma {:induction false} ShownAtIs(db: Db, s: nat)
    requires |db.version.levels| == KNumLevels
    ensures ShownAt(db, s) == DbIterators.Shown(Mergers.Union(Children(db)), s)
  {
  }

  /** A scan: whatever calls are made on the iterator, it is a cursor over what it shows. */
  method Scan(ghost states: seq<State>, ghost steps: seq<Step>, db: Db, s: nat, ops: seq<Op<UserKey>>)
    returns (found: bool, k: UserKey, v: Bytes)
    requires ClosedRun(states, steps) && states[|steps|].db == db && Live(db, s) && |db.version.levels| == KNumLevels
    requires Legal(|ShownAt(db, s)|, DbIterators.Seeks(ShownAt(db, s)), |ShownAt(db, s)|, ops)
    ensures var shown := ShownAt(db, s);
            var c := MovedAll(|shown|, DbIterators.Seeks(shown), |shown|, ops);
            (found <==> c < |shown|) && (found ==> k == shown[c].key.user && v == shown[c].value)
  {
    hide *;
    LastState(states, steps);
    LiveState(states, steps, |steps|);
    UnionIsStock(db);
    ShownAtIs(db, s);
    var inner := new Mergers.MergingIterator(Children(db));
    var it := new DbIterators.DBIter(inner, s);
    ShownSize(it.es, s);
    DbIterators.ApplyAll(it, ops);
    found := it.Valid();
    k, v := 0.0, [];
    if found {
      ValidIs(it);
      k := it.CurrentKey();
      v := it.CurrentValue();
    }
  }

  lemma {:induction false} LastState(states: seq<State>, steps: seq<Step>)
    requires ClosedRun(states, steps)
    ensures |states| == |steps| + 1
  {
  }

  lemma {:induction false} ShownSize(es: seq<Entry>, s: nat)
    ensures |DbIterators.Shown(es, s)| == |DbIterators.Lives(es, s)|
  {
  }

  lemma {:induction false} ValidIs(it: DbIterators.DBIter)
    requires it.Ok() && it.cur < |DbIterators.Shown(it.es, it.sequence)|
    ensures it.valid
  {
  }
}

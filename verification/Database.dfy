/** The store as a state machine: writes, memtable switches, flushes, compactions
    that run while writes, flushes and snapshots go on, trivial moves, and snapshots
    taken and released. A read at a live snapshot, or at the latest sequence number,
    answers from the newest write it may see, however often data has moved: in every
    run whose compactions leave nothing older than an input of its key behind, and so
    in every run whose outputs are not cut inside a user key. */
module Database {
  import opened Keys
  import opened Versions
  import opened Inputs
  import opened Compactions
  import opened LevelSets
  import opened CompactionSafety
  import opened Flushes
  import opened UncutLevels
  import opened Interleavings

  datatype Immutable = NoImm | Imm(entries: seq<Entry>)

  /** A compaction in progress, with the version and the snapshot bound fixed when it
      started. */
  datatype Job = Idle | Running(level: nat, in0: seq<FileMeta>, in1: seq<FileMeta>, base: Version,
                                smallestSnapshot: nat)

  datatype Db = Db(mem: seq<Entry>, imm: Immutable, disk: Disk, next: nat, version: Version,
                   last: nat, snapshots: seq<nat>, job: Job)

  ghost function ImmSet(imm: Immutable): iset<Entry> {
    if imm.NoImm? then iset{} else Elements(imm.entries)
  }

  /** Everything the store holds. */
  ghost function Stock(db: Db): iset<Entry> {
    Elements(db.mem) + ImmSet(db.imm) + Contents(db.disk, db.version)
  }

  // ----- DBImpl::Get -----

  /** Memtable, then immutable memtable, then the files. */
  method Get(db: Db, k: UserKey, s: nat) returns (r: Answer)
    requires Ok(db.disk, db.version)
    requires Versioned(db.mem) && (db.imm.Imm? ==> Versioned(db.imm.entries))
    requires Tiers(db)
    ensures Answers(Stock(db), k, s, r)
  {
    ProbeIsNewest(db.mem, k, s);
    var hit := Probe(db.mem, k, s);
    if hit.Hit? {
      TopAnswers(Elements(db.mem), ImmSet(db.imm) + Contents(db.disk, db.version), k, s, hit.entry);
      assert Stock(db) == Elements(db.mem) + (ImmSet(db.imm) + Contents(db.disk, db.version));
      return AnswerOf(hit.entry);
    }
    if db.imm.Imm? {
      ProbeIsNewest(db.imm.entries, k, s);
      hit := Probe(db.imm.entries, k, s);
      if hit.Hit? {
        TopAnswers(ImmSet(db.imm), Contents(db.disk, db.version), k, s, hit.entry);
        RestAnswers(Elements(db.mem), ImmSet(db.imm) + Contents(db.disk, db.version), k, s);
        assert Stock(db) == Elements(db.mem) + (ImmSet(db.imm) + Contents(db.disk, db.version));
        return AnswerOf(hit.entry);
      }
    }
    r := Versions.Get(db.disk, db.version, k, s);
    RestAnswers(Elements(db.mem) + ImmSet(db.imm), Contents(db.disk, db.version), k, s);
  }

  /** The memtable is newer than the immutable one, and both than the files. */
  ghost predicate Tiers(db: Db) {
    && NewerSet(Elements(db.mem), ImmSet(db.imm))
    && NewerSet(Elements(db.mem), Contents(db.disk, db.version))
    && NewerSet(ImmSet(db.imm), Contents(db.disk, db.version))
  }

  lemma {:induction false} TopAnswers(top: iset<Entry>, rest: iset<Entry>, k: UserKey, s: nat, e: Entry)
    requires NewerSet(top, rest) && IsNewest(top, k, s, e)
    ensures IsNewest(top + rest, k, s, e)
    ensures Answers(top + rest, k, s, AnswerOf(e))
  {
    assert IsNewest(top + rest, k, s, e);
  }

  /** With nothing visible on top, the rest decides. */
  lemma {:induction false} RestAnswers(top: iset<Entry>, rest: iset<Entry>, k: UserKey, s: nat)
    requires NoneVisible(top, k, s)
    ensures forall r :: Answers(rest, k, s, r) <==> Answers(top + rest, k, s, r)
  {
    forall e ensures IsNewest(rest, k, s, e) <==> IsNewest(top + rest, k, s, e) {}
  }

  /** Adding the same newer entries to both sides keeps reads alike. */
  lemma {:induction false} SameReadsUnder(top: iset<Entry>, a: iset<Entry>, b: iset<Entry>, ss: nat)
    requires SameReads(a, b, ss) && NewerSet(top, a) && NewerSet(top, b) && Unique(top)
    ensures SameReads(top + a, top + b, ss)
  {
    forall k, s, r | s >= ss ensures Answers(top + a, k, s, r) <==> Answers(top + b, k, s, r) {
      NewestExists(top, k, s);
      if NoneVisible(top, k, s) {
        RestAnswers(top, a, k, s);
        RestAnswers(top, b, k, s);
        assert Answers(a, k, s, r) <==> Answers(b, k, s, r);
      } else {
        var e :| IsNewest(top, k, s, e);
        TopAnswers(top, a, k, s, e);
        TopAnswers(top, b, k, s, e);
        var r0 := AnswerOf(e);
        if Answers(top + a, k, s, r) { AnswersUnique(top + a, k, s, r, r0); }
        if Answers(top + b, k, s, r) { AnswersUnique(top + b, k, s, r, r0); }
      }
    }
  }

  // ----- steps -----

  /** A state of a run: the store, all writes so far, and the highest snapshot bound
      any compaction has used. */
  datatype State = State(db: Db, history: iset<Entry>, floor: nat)

  /** DoCompactionWork: the oldest snapshot, or the latest sequence number. */
  function SmallestSnapshot(snapshots: seq<nat>, last: nat): nat {
    if snapshots == [] then last else snapshots[0]
  }

  ghost predicate Init(s: State) {
    && s.db == Db([], NoImm, map[], 2, Version(seq(KNumLevels, l => [])), 0, [], Idle)
    && s.history == iset{} && s.floor == 0
  }

  datatype Step =
    | Write(batch: seq<Entry>)
    | Switch
    | Flush(level: nat, file: FileMeta)
    | FlushEmpty
    | Start(level: nat, in0: seq<FileMeta>, in1: seq<FileMeta>)
    | Finish(outs: seq<FileMeta>)
    | Move(level: nat, file: FileMeta)
    | TakeSnapshot
    | Release(i: nat)

  /** Operations of a batch are numbered consecutively from `last` on. */
  ghost predicate Numbered(batch: seq<Entry>, last: nat) {
    forall i :: 0 <= i < |batch| ==> batch[i].key.sequence == last + 1 + i
  }

  ghost predicate WriteStep(s: State, batch: seq<Entry>, s': State) {
    && Numbered(batch, s.db.last)
    && s.db.last + |batch| < KMaxSequenceNumber
    && s'.db == s.db.(mem := s'.db.mem, last := s.db.last + |batch|)
    && Versioned(s'.db.mem) && Elements(s'.db.mem) == Elements(s.db.mem) + Elements(batch)
    && s'.history == s.history + Elements(batch) && s'.floor == s.floor
  }

  /** MakeRoomForWrite turns the full memtable into the immutable one. */
  ghost predicate SwitchStep(s: State, s': State) {
    && s.db.imm.NoImm?
    && s' == s.(db := s.db.(mem := [], imm := Imm(s.db.mem)))
  }

  /** CompactMemTable, on its own or inside a running compaction; no table is written
      for an empty memtable. */
  ghost predicate FlushStep(s: State, level: nat, f: FileMeta, s': State) {
    && |s.db.version.levels| == KNumLevels
    && s.db.imm.Imm? && s.db.imm.entries != []
    && (s.db.job.Running? ==> Beside(level, f, s.db.job.level, s.db.job.in0, s.db.job.in1))
    && f.number == s.db.next
    && Allowed(s.db.version, level, f)
    && Flushed(s.db.disk, s'.db.disk, s.db.version, s'.db.version, level, f, s.db.imm.entries)
    && s' == s.(db := s.db.(imm := NoImm, disk := s'.db.disk, version := s'.db.version, next := s.db.next + 1))
  }

  ghost predicate FlushEmptyStep(s: State, s': State) {
    && s.db.imm == Imm([])
    && s' == s.(db := s.db.(imm := NoImm))
  }

  ghost predicate StartStep(s: State, level: nat, in0: seq<FileMeta>, in1: seq<FileMeta>, s': State) {
    && s.db.job.Idle?
    && |s.db.version.levels| == KNumLevels && level + 1 < KNumLevels
    && Chosen(level, s.db.version.levels[level], s.db.version.levels[level + 1], in0, in1)
    && s' == s.(db := s.db.(job := Running(level, in0, in1, s.db.version, SmallestSnapshot(s.db.snapshots, s.db.last))))
  }

  ghost predicate FinishStep(s: State, outs: seq<FileMeta>, s': State) {
    && s.db.job.Running?
    && var j := s.db.job;
    && |s.db.version.levels| == KNumLevels && j.level + 1 < KNumLevels
    && Result(s.db.disk, s'.db.disk, j.base, j.level, j.in0, j.in1, outs, j.smallestSnapshot)
    && Installed(s.db.version, s'.db.version, j.level, j.in0, j.in1, outs)
    && s.db.next <= s'.db.next && NumbersBelow(s'.db.disk, s'.db.next)
    && s'.db == s.db.(disk := s'.db.disk, version := s'.db.version, next := s'.db.next, job := Idle)
    && s'.history == s.history
    && s'.floor == if s.floor < j.smallestSnapshot then j.smallestSnapshot else s.floor
  }

  /** BackgroundCompaction: a lone input that meets nothing below is handed down as it
      is. */
  ghost predicate MoveStep(s: State, level: nat, f: FileMeta, s': State) {
    && s.db.job.Idle?
    && |s.db.version.levels| == KNumLevels && level + 1 < KNumLevels
    && Chosen(level, s.db.version.levels[level], s.db.version.levels[level + 1], [f], [])
    && Installed(s.db.version, s'.db.version, level, [f], [], [f])
    && s' == s.(db := s.db.(version := s'.db.version))
  }

  ghost predicate Next(s: State, a: Step, s': State) {
    match a
    case Write(batch) => WriteStep(s, batch, s')
    case Switch => SwitchStep(s, s')
    case Flush(level, file) => FlushStep(s, level, file, s')
    case FlushEmpty => FlushEmptyStep(s, s')
    case Start(level, in0, in1) => StartStep(s, level, in0, in1, s')
    case Finish(outs) => FinishStep(s, outs, s')
    case Move(level, file) => MoveStep(s, level, file, s')
    case TakeSnapshot => s' == s.(db := s.db.(snapshots := s.db.snapshots + [s.db.last]))
    case Release(i) =>
      && i < |s.db.snapshots|
      && s' == s.(db := s.db.(snapshots := s.db.snapshots[..i] + s.db.snapshots[i + 1..]))
  }

  // ----- the invariant -----

  ghost predicate Shape(db: Db) {
    && Ok(db.disk, db.version)
    && NumbersBelow(db.disk, db.next)
    && Versioned(db.mem) && (db.imm.Imm? ==> Versioned(db.imm.entries))
    && Tiers(db)
    && db.last < KMaxSequenceNumber
  }

  ghost predicate Ascending(xs: seq<nat>) {
    forall i, j :: 0 <= i < j < |xs| ==> xs[i] <= xs[j]
  }

  /** No live snapshot, nor the latest number, is below `bound`. */
  ghost predicate Covers(db: Db, bound: nat) {
    && bound <= db.last
    && forall i :: 0 <= i < |db.snapshots| ==> bound <= db.snapshots[i]
  }

  ghost predicate Recorded(s: State) {
    && Stock(s.db) <= s.history
    && Unique(s.history)
    && (forall e :: e in s.history ==> e.key.sequence <= s.db.last)
  }

  ghost predicate JobOk(s: State) {
    s.db.job.Running? ==>
      && var j := s.db.job;
      && |s.db.version.levels| == KNumLevels && j.level + 1 < KNumLevels
      && Covers(s.db, j.smallestSnapshot)
      && Fit(s.db.version.levels[j.level], s.db.version.levels[j.level + 1], j.in0, j.in1)
      && StillBase(s.db.disk, j.base, s.db.version, j.level, j.in0, j.in1)
      && NoOlderLeftBehind(s.db.disk, s.db.version, j.level, j.in0, j.in1)
  }

  ghost predicate SnapshotsOk(db: Db) {
    && Ascending(db.snapshots)
    && forall i :: 0 <= i < |db.snapshots| ==> db.snapshots[i] <= db.last
  }

  ghost predicate Inv(s: State) {
    && Shape(s.db)
    && SnapshotsOk(s.db)
    && Covers(s.db, s.floor)
    && Recorded(s)
    && JobOk(s)
    && SameReads(s.history, Stock(s.db), s.floor)
  }

  lemma {:induction false} InitInv(s: State)
    requires Init(s)
    ensures Inv(s)
  {
    assert Stock(s.db) == iset{} by {
      forall e ensures !InVersion(s.db.disk, s.db.version, e) {}
    }
  }

  // ----- every step keeps it -----

  lemma {:induction false} BatchIsNewer(all: iset<Entry>, batch: seq<Entry>, last: nat)
    requires Numbered(batch, last) && forall e :: e in all ==> e.key.sequence <= last
    ensures NewerSet(Elements(batch), all) && Unique(Elements(batch))
    ensures Unique(all) ==> Unique(all + Elements(batch))
  {
    forall e | e in Elements(batch) ensures e.key.sequence > last {
      var i :| 0 <= i < |batch| && batch[i] == e;
    }
    forall a, b | a in Elements(batch) && b in Elements(batch) && a.key.sequence == b.key.sequence ensures a == b {
      var i :| 0 <= i < |batch| && batch[i] == a;
      var j :| 0 <= j < |batch| && batch[j] == b;
    }
  }

  lemma {:induction false} WriteKeeps(s: State, batch: seq<Entry>, s': State)
    requires Inv(s) && WriteStep(s, batch, s')
    ensures Inv(s')
  {
    hide Ok, NumbersBelow, NoOlderLeftBehind, StillBase, Fit, Contents;
    var b := Elements(batch);
    BatchIsNewer(s.history, batch, s.db.last);
    assert Stock(s'.db) == b + Stock(s.db);
    assert s'.history == b + s.history;
    SameReadsUnder(b, s.history, Stock(s.db), s.floor);
    forall e | e in s'.history ensures e.key.sequence <= s'.db.last {
      if e in b { var i :| 0 <= i < |batch| && batch[i] == e; }
    }
    assert NewerSet(b, Stock(s.db));
    assert Tiers(s'.db);
  }

  lemma {:induction false} SwitchKeeps(s: State, s': State)
    requires Inv(s) && SwitchStep(s, s')
    ensures Inv(s')
  {
    hide Ok, NumbersBelow, NoOlderLeftBehind, StillBase, Fit, SameReads, Unique, Contents;
    assert Stock(s'.db) == Stock(s.db);
  }

  lemma {:induction false} FlushKeeps(s: State, level: nat, f: FileMeta, s': State)
    requires Inv(s) && FlushStep(s, level, f, s')
    ensures Inv(s')
  {
    var es := s.db.imm.entries;
    assert ImmSet(s.db.imm) == Elements(es);
    FlushKeepsOk(s.db.disk, s'.db.disk, s.db.version, s'.db.version, level, f, es);
    FlushMoves(s.db, s'.db, es);
    FlushKeepsJob(s, level, f, s');
    assert Shape(s'.db);
  }

  lemma {:induction false} FlushKeepsJob(s: State, level: nat, f: FileMeta, s': State)
    requires Inv(s) && FlushStep(s, level, f, s')
    ensures JobOk(s')
  {
    hide *;
    FlushParts(s, level, f, s');
    var es, j := s.db.imm.entries, s.db.job;
    if j.Idle? {
      IdleIsOk(s');
    } else {
      var db, db' := s.db, s'.db;
      RunningParts(s);
      CoversStill(db, db', j.smallestSnapshot);
      FlushKeepsFit(db.disk, db'.disk, db.version, db'.version, level, f, es, j.level, j.in0, j.in1);
      FlushKeepsNoOlder(db.disk, db'.disk, db.version, db'.version, level, f, es, j.level, j.in0, j.in1);
      FlushKeepsBase(db.disk, db'.disk, j.base, db.version, db'.version, level, f, es, j.level, j.in0, j.in1);
      RunningWhole(s');
    }
  }

  lemma {:induction false} RunningParts(s: State)
    requires Inv(s) && s.db.job.Running?
    ensures var j := s.db.job;
            && Ok(s.db.disk, s.db.version) && |s.db.version.levels| == KNumLevels && j.level + 1 < KNumLevels
            && Fit(s.db.version.levels[j.level], s.db.version.levels[j.level + 1], j.in0, j.in1)
            && Subset(j.in0, s.db.version.levels[j.level]) && Subset(j.in1, s.db.version.levels[j.level + 1])
            && StillBase(s.db.disk, j.base, s.db.version, j.level, j.in0, j.in1)
            && NoOlderLeftBehind(s.db.disk, s.db.version, j.level, j.in0, j.in1)
            && Covers(s.db, j.smallestSnapshot)
            && (s.db.imm.Imm? ==> NewerSet(Elements(s.db.imm.entries), Contents(s.db.disk, s.db.version)))
  {
    if s.db.imm.Imm? { assert ImmSet(s.db.imm) == Elements(s.db.imm.entries); }
  }

  lemma {:induction false} IdleIsOk(s: State)
    requires s.db.job.Idle?
    ensures JobOk(s)
  {
  }

  lemma {:induction false} CoversStill(db: Db, db': Db, bound: nat)
    requires Covers(db, bound) && db'.last == db.last && db'.snapshots == db.snapshots
    ensures Covers(db', bound)
  {
  }

  lemma {:induction false} FlushParts(s: State, level: nat, f: FileMeta, s': State)
    requires FlushStep(s, level, f, s')
    ensures |s.db.version.levels| == KNumLevels == |s'.db.version.levels| && s'.db.job == s.db.job &&
            Allowed(s.db.version, level, f)
    ensures s.db.imm.Imm? && s'.db.last == s.db.last && s'.db.snapshots == s.db.snapshots
    ensures Flushed(s.db.disk, s'.db.disk, s.db.version, s'.db.version, level, f, s.db.imm.entries)
    ensures s.db.job.Running? ==> Beside(level, f, s.db.job.level, s.db.job.in0, s.db.job.in1)
  {
  }

  lemma {:induction false} RunningWhole(s: State)
    requires s.db.job.Running?
    requires var j := s.db.job;
             && |s.db.version.levels| == KNumLevels && j.level + 1 < KNumLevels && Covers(s.db, j.smallestSnapshot)
             && Fit(s.db.version.levels[j.level], s.db.version.levels[j.level + 1], j.in0, j.in1)
             && StillBase(s.db.disk, j.base, s.db.version, j.level, j.in0, j.in1)
             && NoOlderLeftBehind(s.db.disk, s.db.version, j.level, j.in0, j.in1)
    ensures JobOk(s)
  {
  }

  /** A flush moves entries from the immutable memtable to the files. */
  lemma {:induction false} FlushMoves(db: Db, db': Db, es: seq<Entry>)
    requires Tiers(db) && db.imm == Imm(es) && db'.mem == db.mem && db'.imm.NoImm?
    requires Contents(db'.disk, db'.version) == Contents(db.disk, db.version) + Elements(es)
    ensures Tiers(db') && Stock(db') == Stock(db)
  {
  }

  lemma {:induction false} FlushEmptyKeeps(s: State, s': State)
    requires Inv(s) && FlushEmptyStep(s, s')
    ensures Inv(s')
  {
    hide Ok, NumbersBelow, NoOlderLeftBehind, StillBase, Fit, SameReads, Unique, Contents;
    assert Stock(s'.db) == Stock(s.db);
  }

  lemma {:induction false} StartKeeps(s: State, level: nat, in0: seq<FileMeta>, in1: seq<FileMeta>, s': State)
    requires Inv(s) && StartStep(s, level, in0, in1, s') && NoOlderLeftBehind(s.db.disk, s.db.version, level, in0, in1)
    ensures Inv(s')
  {
    assert |s.db.version.levels| == KNumLevels;
    hide Ok, NumbersBelow, NoOlderLeftBehind, Fit, SameReads, Unique, Contents, BaseLevel, NewerSet, Elements, ImmSet;
  }

  lemma {:induction false} SameReadsTrans(a: iset<Entry>, b: iset<Entry>, c: iset<Entry>, f: nat, g: nat, h: nat)
    requires SameReads(a, b, f) && SameReads(b, c, g) && f <= h && g <= h
    ensures SameReads(a, c, h)
  {
    forall k, s, r | s >= h ensures Answers(a, k, s, r) <==> Answers(c, k, s, r) {
      assert Answers(a, k, s, r) <==> Answers(b, k, s, r);
    }
  }

  lemma {:induction false} FinishKeeps(s: State, outs: seq<FileMeta>, s': State)
    requires Inv(s) && FinishStep(s, outs, s')
    ensures Inv(s')
  {
    var j, db, db' := s.db.job, s.db, s'.db;
    ResultStands(db.disk, db'.disk, j.base, db.version, j.level, j.in0, j.in1, outs, j.smallestSnapshot);
    InstallKeeps(s, j.level, j.in0, j.in1, outs, j.smallestSnapshot, s');
  }

  /** A compaction of any kind, once its result is installed. */
  lemma {:induction false} InstallKeeps(s: State, level: nat, in0: seq<FileMeta>, in1: seq<FileMeta>,
                                        outs: seq<FileMeta>, ss: nat, s': State)
    requires Inv(s) && level + 1 < KNumLevels && NoOlderLeftBehind(s.db.disk, s.db.version, level, in0, in1)
    requires Compacted(s.db.disk, s'.db.disk, s.db.version, s'.db.version, level, in0, in1, outs, ss)
    requires Covers(s.db, ss) && NumbersBelow(s'.db.disk, s'.db.next)
    requires s'.db == s.db.(disk := s'.db.disk, version := s'.db.version, next := s'.db.next, job := Idle)
    requires s'.history == s.history && s'.floor == if s.floor < ss then ss else s.floor
    ensures Inv(s')
  {
    var db, db' := s.db, s'.db;
    CompactionKeepsReads(db.disk, db'.disk, db.version, db'.version, level, in0, in1, outs, ss);
    CompactionKeepsOk(db.disk, db'.disk, db.version, db'.version, level, in0, in1, outs, ss);
    CompactionShrinks(db.disk, db'.disk, db.version, db'.version, level, in0, in1, outs, ss);
    var top := Elements(db.mem) + ImmSet(db.imm);
    var a, b := Contents(db.disk, db.version), Contents(db'.disk, db'.version);
    assert Stock(db) == top + a && Stock(db') == top + b;
    assert top <= s.history;
    SameReadsUnder(top, a, b, ss);
    SameReadsTrans(s.history, Stock(db), Stock(db'), s.floor, ss, s'.floor);
  }

  lemma {:induction false} MoveKeeps(s: State, level: nat, f: FileMeta, s': State)
    requires Inv(s) && MoveStep(s, level, f, s') && NoOlderLeftBehind(s.db.disk, s.db.version, level, [f], [])
    ensures Inv(s')
  {
    var files := s.db.version.levels[level];
    assert [f][0] in files;
    var i :| 0 <= i < |files| && files[i] == f;
    assert AllStored(s.db.disk, files) && Stored(s.db.disk, files[i]);
    MoveGivesResult(s.db.disk, s.db.version, level, f, 0);
    InstallKeeps(s, level, [f], [], [f], 0, s');
  }

  lemma {:induction false} CompactionShrinks(disk: Disk, disk': Disk, v: Version, v': Version, level: nat,
                          in0: seq<FileMeta>, in1: seq<FileMeta>, outs: seq<FileMeta>, ss: nat)
    requires Ok(disk, v) && Compacted(disk, disk', v, v', level, in0, in1, outs, ss)
    ensures Contents(disk', v') <= Contents(disk, v)
  {
    var p := PartsOf(disk, disk', v, level, in0, in1, outs);
    OkIsUnique(disk, v);
    PartsSplit(disk, disk', v, level, in0, in1, outs, ss);
    InstalledSets(disk, disk', v, v', level, in0, in1, outs, ss);
    SetsAreContents(disk, v);
    SetsAreContents(disk', v');
    forall e | e in Contents(disk', v') ensures e in Contents(disk, v) { NextContents(Sets(disk, v), level, p, e); }
  }

  /** Only the snapshot list changes: a new last one, or one less. */
  lemma {:induction false} SnapshotKeeps(s: State, s': State)
    requires Inv(s) && s' == s.(db := s.db.(snapshots := s'.db.snapshots))
    requires SnapshotsOk(s'.db) && forall x :: x in s'.db.snapshots ==> x in s.db.snapshots || x == s.db.last
    ensures Inv(s')
  {
    assert Stock(s'.db) == Stock(s.db) && Tiers(s'.db);
    forall b | Covers(s.db, b) ensures Covers(s'.db, b) {
      forall i | 0 <= i < |s'.db.snapshots| ensures b <= s'.db.snapshots[i] {
        assert s'.db.snapshots[i] in s'.db.snapshots;
      }
    }
  }

  /** The step takes no compaction inputs that leave something older behind. */
  ghost predicate Closed(s: State, a: Step) {
    match a
    case Start(level, in0, in1) =>
      |s.db.version.levels| == KNumLevels && level + 1 < KNumLevels ==>
        NoOlderLeftBehind(s.db.disk, s.db.version, level, in0, in1)
    case Move(level, f) =>
      |s.db.version.levels| == KNumLevels && level + 1 < KNumLevels ==>
        NoOlderLeftBehind(s.db.disk, s.db.version, level, [f], [])
    case _ => true
  }

  lemma {:induction false} NextKeeps(s: State, a: Step, s': State)
    requires Inv(s) && Next(s, a, s') && Closed(s, a)
    ensures Inv(s')
  {
    hide WriteStep, FlushStep, FinishStep, NoOlderLeftBehind, Shape, Recorded, JobOk, SameReads, Covers;
    match a
    case Write(batch) => WriteKeeps(s, batch, s');
    case Switch => SwitchKeeps(s, s');
    case Flush(level, file) => FlushKeeps(s, level, file, s');
    case FlushEmpty => FlushEmptyKeeps(s, s');
    case Start(level, in0, in1) => StartKeeps(s, level, in0, in1, s');
    case Finish(outs) => FinishKeeps(s, outs, s');
    case Move(level, file) => MoveKeeps(s, level, file, s');
    case TakeSnapshot => SnapshotKeeps(s, s');
    case Release(i) => SnapshotKeeps(s, s');
  }

  // ----- runs -----

  ghost predicate IsRun(states: seq<State>, steps: seq<Step>) {
    && |states| == |steps| + 1
    && Init(states[0])
    && forall i :: 0 <= i < |steps| ==> Next(states[i], steps[i], states[i + 1])
  }

  ghost predicate ClosedRun(states: seq<State>, steps: seq<Step>) {
    IsRun(states, steps) && forall i :: 0 <= i < |steps| ==> Closed(states[i], steps[i])
  }

  lemma {:induction false} RunInv(states: seq<State>, steps: seq<Step>, n: nat)
    requires ClosedRun(states, steps) && n < |states|
    ensures Inv(states[n])
  {
    hide Inv, Next, Closed;
    if n == 0 {
      InitInv(states[0]);
    } else {
      RunInv(states, steps, n - 1);
      NextKeeps(states[n - 1], steps[n - 1], states[n]);
    }
  }

  ghost predicate Live(db: Db, s: nat) {
    s == db.last || s in db.snapshots
  }

  /** In every state of a closed run, a read at a live snapshot or at the latest number
      answers from the newest of all writes ever made that it may see. */
  lemma {:induction false} ReadsFollowHistory(states: seq<State>, steps: seq<Step>, n: nat, k: UserKey, s: nat,
                                              r: Answer)
    requires ClosedRun(states, steps) && n < |states|
    requires Live(states[n].db, s)
    ensures Answers(Stock(states[n].db), k, s, r) <==> Answers(states[n].history, k, s, r)
  {
    RunInv(states, steps, n);
    assert s >= states[n].floor;
  }

  /** A compaction that is running, and every one that has finished, used a bound no
      higher than any snapshot live since. */
  lemma {:induction false} SnapshotsStayCovered(states: seq<State>, steps: seq<Step>, n: nat, s: nat)
    requires ClosedRun(states, steps) && n < |states|
    requires Live(states[n].db, s)
    ensures states[n].floor <= s
    ensures states[n].db.job.Running? ==> states[n].db.job.smallestSnapshot <= s
  {
    RunInv(states, steps, n);
  }

  /** What DBImpl::Get computes in a reachable state. */
  method ReadLive(ghost states: seq<State>, ghost steps: seq<Step>, db: Db, k: UserKey, s: nat) returns (r: Answer)
    requires ClosedRun(states, steps) && states[|steps|].db == db && Live(db, s)
    ensures Answers(states[|steps|].history, k, s, r)
  {
    RunInv(states, steps, |steps|);
    r := Get(db, k, s);
    ReadsFollowHistory(states, steps, |steps|, k, s, r);
  }

  // ----- runs whose outputs are not cut inside a user key -----

  ghost predicate UncutStep(a: Step) {
    a.Finish? ==> UserDisjoint(a.outs)
  }

  ghost predicate UncutRun(states: seq<State>, steps: seq<Step>) {
    IsRun(states, steps) && forall i :: 0 <= i < |steps| ==> UncutStep(steps[i])
  }

  /** Where no file boundary splits a user key, every choice of inputs is closed. */
  lemma {:induction false} UncutIsClosed(s: State, a: Step, s': State)
    requires Inv(s) && Uncut(s.db.version) && Next(s, a, s')
    ensures Closed(s, a)
  {
    hide NoOlderLeftBehind, Ok, UserDisjoint, SameReads, Recorded, JobOk, Tiers;
    match a
    case Start(level, in0, in1) => ChosenLeavesNothingOlder(s.db.disk, s.db.version, level, in0, in1);
    case Move(level, f) => ChosenLeavesNothingOlder(s.db.disk, s.db.version, level, [f], []);
    case _ =>
  }

  lemma {:induction false} NextKeepsUncut(s: State, a: Step, s': State)
    requires Inv(s) && Uncut(s.db.version) && Next(s, a, s') && UncutStep(a)
    ensures Uncut(s'.db.version)
  {
    match a
    case Flush(level, file) =>
      FlushKeepsUncut(s.db.disk, s'.db.disk, s.db.version, s'.db.version, level, file, s.db.imm.entries);
    case Finish(outs) =>
      var j := s.db.job;
      ResultStands(s.db.disk, s'.db.disk, j.base, s.db.version, j.level, j.in0, j.in1, outs, j.smallestSnapshot);
      CompactionKeepsUncut(s.db.disk, s'.db.disk, s.db.version, s'.db.version, j.level, j.in0, j.in1, outs,
                           j.smallestSnapshot);
    case Move(level, f) =>
      MoveIsUncut(s, level, f, s');
    case _ =>
  }

  lemma {:induction false} MoveIsUncut(s: State, level: nat, f: FileMeta, s': State)
    requires Inv(s) && Uncut(s.db.version) && MoveStep(s, level, f, s')
    ensures Uncut(s'.db.version)
  {
    var files := s.db.version.levels[level];
    assert [f][0] in files;
    var i :| 0 <= i < |files| && files[i] == f;
    assert AllStored(s.db.disk, files) && Stored(s.db.disk, files[i]);
    MoveGivesResult(s.db.disk, s.db.version, level, f, 0);
    CompactionKeepsUncut(s.db.disk, s.db.disk, s.db.version, s'.db.version, level, [f], [], [f], 0);
  }

  lemma {:induction false} UncutRunInv(states: seq<State>, steps: seq<Step>, n: nat)
    requires UncutRun(states, steps) && n < |states|
    ensures Inv(states[n]) && Uncut(states[n].db.version)
  {
    hide Inv, Next, UncutStep, Closed;
    if n == 0 {
      InitInv(states[0]);
    } else {
      UncutRunInv(states, steps, n - 1);
      UncutIsClosed(states[n - 1], steps[n - 1], states[n]);
      NextKeepsUncut(states[n - 1], steps[n - 1], states[n]);
      NextKeeps(states[n - 1], steps[n - 1], states[n]);
    }
  }

  /** If no compaction cuts its outputs inside a user key, every state of the run reads
      as the history of writes, whatever inputs are picked. */
  lemma {:induction false} UncutReadsFollowHistory(states: seq<State>, steps: seq<Step>, n: nat, k: UserKey, s: nat,
                                                   r: Answer)
    requires UncutRun(states, steps) && n < |states|
    requires Live(states[n].db, s)
    ensures ClosedRun(states, steps)
    ensures Answers(Stock(states[n].db), k, s, r) <==> Answers(states[n].history, k, s, r)
  {
    hide Inv, Next, UncutStep, Closed;
    forall i | 0 <= i < |steps| ensures Closed(states[i], steps[i]) {
      UncutRunInv(states, steps, i);
      UncutIsClosed(states[i], steps[i], states[i + 1]);
    }
    ReadsFollowHistory(states, steps, n, k, s, r);
  }
}

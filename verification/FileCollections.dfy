/** Garbage collection of table files (db/db_impl.cc DeleteObsoleteFiles and the users of
    pending_outputs_; db/version_set.cc Version::Ref, Unref, AppendVersion, AddLiveFiles):
    readers that hold versions, and one background thread that flushes, compacts and
    collects. */
module FileCollections {

  /** A version as far as collection goes: file numbers by level, and a reference count. */
  datatype Ver = Ver(levels: seq<seq<nat>>, refs: nat)

  type Vid = nat
  type Vers = map<Vid, Ver>

  predicate Lists(levels: seq<seq<nat>>, n: nat) {
    exists l :: 0 <= l < |levels| && n in levels[l]
  }

  /** Some version lists the table. */
  predicate Listed(vers: Vers, n: nat) {
    exists v :: v in vers && Lists(vers[v].levels, n)
  }

  /** A flush: its table has a number; is on disk; is no longer pending and not yet in a
      version. */
  datatype Flush = NoFlush | Writing(n: nat, base: Vid) | Written(n: nat, base: Vid) | Built(n: nat)

  /** A compaction, with the version its inputs come from. */
  datatype Job = NoJob | Job(base: Vid, inputs: set<nat>, outputs: set<nat>, installed: bool)

  /** `held` are the versions that readers and iterators have taken. */
  datatype State = State(vers: Vers, current: Vid, unused: Vid, held: multiset<Vid>, flush: Flush, job: Job,
                         pending: set<nat>, next: nat, disk: set<nat>, error: bool)

  // ----- references -----

  function RefVer(vers: Vers, v: Vid): Vers {
    if v in vers then vers[v := vers[v].(refs := vers[v].refs + 1)] else vers
  }

  /** A version without references goes. */
  function UnrefVer(vers: Vers, v: Vid): Vers {
    if v !in vers then vers
    else if vers[v].refs <= 1 then vers - {v}
    else vers[v := vers[v].(refs := vers[v].refs - 1)]
  }

  function Installed(s: State, levels: seq<seq<nat>>): State {
    s.(vers := UnrefVer(s.vers, s.current)[s.unused := Ver(levels, 1)], current := s.unused, unused := s.unused + 1)
  }

  // ----- steps -----

  datatype Step =
    | Acquire
    | Release(v: Vid)
    | FlushBegin
    | FlushWrite
    | FlushBuilt
    | FlushInstall(levels: seq<seq<nat>>)
    | FlushFail
    | JobBegin(inputs: set<nat>)
    | JobOpen
    | JobInstall(levels: seq<seq<nat>>)
    | JobMove(levels: seq<seq<nat>>)
    | JobEnd
    | Collect

  /** Nothing is kept of a job that failed, and no file is deleted after an error. */
  function Ended(s: State): State
    requires s.job.Job?
  {
    s.(vers := UnrefVer(s.vers, s.job.base), pending := s.pending - s.job.outputs, job := NoJob,
       error := s.error || !s.job.installed)
  }

  function Collected(s: State): State {
    if s.error then s else s.(disk := set n | n in s.disk && (n in s.pending || Listed(s.vers, n)))
  }

  ghost predicate Next(s: State, a: Step, s': State) {
    match a
    case Acquire => s' == s.(vers := RefVer(s.vers, s.current), held := s.held + multiset{s.current})
    case Release(v) => s.held[v] > 0 && s' == s.(vers := UnrefVer(s.vers, v), held := s.held - multiset{v})
    case FlushBegin =>
      && s.flush.NoFlush? && (s.job.Job? ==> !s.job.installed)
      && s' == s.(flush := Writing(s.next, s.current), vers := RefVer(s.vers, s.current),
                  pending := s.pending + {s.next}, next := s.next + 1)
    case FlushWrite =>
      && s.flush.Writing?
      && s' == s.(flush := Written(s.flush.n, s.flush.base), disk := s.disk + {s.flush.n})
    case FlushBuilt =>
      && s.flush.Written?
      && s' == s.(flush := Built(s.flush.n), vers := UnrefVer(s.vers, s.flush.base), pending := s.pending - {s.flush.n})
    case FlushInstall(levels) =>
      && s.flush.Built? && s.current in s.vers
      && (forall n :: Lists(levels, n) <==> n == s.flush.n || Lists(s.vers[s.current].levels, n))
      && s' == Installed(s, levels).(flush := NoFlush)
    case FlushFail =>
      && s.flush.Built?
      && s' == s.(flush := NoFlush, error := true)
    case JobBegin(inputs) =>
      && s.flush.NoFlush? && s.job.NoJob? && s.current in s.vers
      && (forall n :: n in inputs ==> Lists(s.vers[s.current].levels, n))
      && s' == s.(job := Job(s.current, inputs, {}, false), vers := RefVer(s.vers, s.current))
    case JobOpen =>
      && s.flush.NoFlush? && s.job.Job? && !s.job.installed
      && s' == s.(job := s.job.(outputs := s.job.outputs + {s.next}), pending := s.pending + {s.next},
                  disk := s.disk + {s.next}, next := s.next + 1)
    case JobInstall(levels) =>
      && s.flush.NoFlush? && s.job.Job? && !s.job.installed && s.current in s.vers
      && (forall n :: Lists(levels, n) <==>
            n in s.job.outputs || (Lists(s.vers[s.current].levels, n) && n !in s.job.inputs))
      && s' == Installed(s, levels).(job := s.job.(installed := true))
    case JobMove(levels) =>
      && s.flush.NoFlush? && s.job.Job? && !s.job.installed && s.job.outputs == {} && s.current in s.vers
      && (forall n :: Lists(levels, n) <==> Lists(s.vers[s.current].levels, n))
      && s' == Installed(s, levels).(job := s.job.(installed := true))
    case JobEnd => s.flush.NoFlush? && s.job.Job? && s' == Ended(s)
    case Collect => s.flush.NoFlush? && s' == Collected(s)
  }

  // ----- the invariant -----

  function One(b: bool): nat { if b then 1 else 0 }

  function FlushBase(f: Flush, v: Vid): nat { One((f.Writing? || f.Written?) && f.base == v) }

  function JobBase(j: Job, v: Vid): nat { One(j.Job? && j.base == v) }

  /** The references to a version: the current one has one, each reader, the flush and
      the compaction that started from it one each. */
  function Refs(s: State, v: Vid): nat {
    s.held[v] + One(v == s.current) + FlushBase(s.flush, v) + JobBase(s.job, v)
  }

  predicate VerOk(s: State, v: Vid) {
    if v in s.vers then v < s.unused && s.vers[v].refs == Refs(s, v) > 0 else Refs(s, v) == 0
  }

  ghost predicate VersOk(s: State) { forall v :: VerOk(s, v) }

  /** Every table that a version lists is there. */
  ghost predicate TablesThere(s: State) {
    forall v, n :: v in s.vers && Lists(s.vers[v].levels, n) ==> n in s.disk
  }

  predicate JobOk(s: State) {
    s.job.Job? ==>
      && s.job.base in s.vers && (forall n :: n in s.job.inputs ==> Lists(s.vers[s.job.base].levels, n))
      && s.job.outputs <= s.disk && s.job.outputs <= s.pending
  }

  predicate FlushOk(s: State) {
    match s.flush
    case NoFlush => true
    case Writing(n, base) => n in s.pending && n !in s.disk && n < s.next
    case Written(n, base) => n in s.pending && n in s.disk && (s.job.Job? ==> n !in s.job.outputs) && n < s.next
    case Built(n) => n in s.disk && n !in s.pending && !Listed(s.vers, n) && n < s.next
  }

  ghost predicate NumbersOk(s: State) {
    && (forall n :: n in s.disk ==> n < s.next)
    && (forall n :: n in s.pending ==> n < s.next)
  }

  /** What is pending is being written. */
  predicate PendingOk(s: State) {
    forall n :: n in s.pending ==>
      (s.job.Job? && n in s.job.outputs) || ((s.flush.Writing? || s.flush.Written?) && n == s.flush.n)
  }

  /** A table that the flush is making is in no version yet. */
  predicate FlushUnlisted(s: State) {
    s.flush.Writing? || s.flush.Written? ==> !Listed(s.vers, s.flush.n) && (s.job.Job? ==> s.flush.n !in s.job.outputs)
  }

  ghost predicate Inv(s: State) {
    VersOk(s) && TablesThere(s) && JobOk(s) && FlushOk(s) && NumbersOk(s) && PendingOk(s) && FlushUnlisted(s)
  }

  ghost predicate Init(s: State) {
    exists levels, next, disk ::
      && (forall n :: Lists(levels, n) ==> n in disk) && (forall n :: n in disk ==> n < next)
      && s == State(map[0 := Ver(levels, 1)], 0, 1, multiset{}, NoFlush, NoJob, {}, next, disk, false)
  }

  // ----- every step keeps it -----

  /** What `vers'` lists, `vers` lists too, in a version of the same number. */
  ghost predicate Fewer(vers': Vers, vers: Vers) {
    forall v :: v in vers' ==> v in vers && vers'[v].levels == vers[v].levels
  }

  lemma {:induction false} FewerListed(vers': Vers, vers: Vers, n: nat)
    requires Fewer(vers', vers) && Listed(vers', n)
    ensures Listed(vers, n)
  {
    var v :| v in vers' && Lists(vers'[v].levels, n);
    assert v in vers && Lists(vers[v].levels, n);
  }

  lemma {:induction false} FewerUnlisted(vers': Vers, vers: Vers, n: nat)
    requires Fewer(vers', vers) && !Listed(vers, n)
    ensures !Listed(vers', n)
  {
    if Listed(vers', n) { FewerListed(vers', vers, n); }
  }

  /** The versions change only in their counts, or go. */
  lemma {:induction false} CountsKeep(s: State, s': State)
    requires Inv(s) && Fewer(s'.vers, s.vers) && VersOk(s')
    requires s'.flush == s.flush && s'.job == s.job && s'.pending == s.pending && s'.next == s.next && s'.disk == s.disk
    ensures Inv(s')
  {
    hide Lists;
    forall n | Listed(s'.vers, n) ensures Listed(s.vers, n) { FewerListed(s'.vers, s.vers, n); }
    if s.job.Job? { assert VerOk(s', s.job.base) && Refs(s', s.job.base) > 0; }
  }

  lemma {:induction false} AcquireKeeps(s: State, s': State)
    requires Inv(s) && Next(s, Acquire, s')
    ensures Inv(s')
  {
    hide Lists;
    forall v ensures VerOk(s', v) { assert VerOk(s, v); }
    CountsKeep(s, s');
  }

  lemma {:induction false} ReleaseKeeps(s: State, r: Vid, s': State)
    requires Inv(s) && Next(s, Release(r), s')
    ensures Inv(s')
  {
    hide Lists;
    forall v ensures VerOk(s', v) { assert VerOk(s, v); }
    CountsKeep(s, s');
  }

  /** The parts that do not speak of versions, and those that do. */
  lemma {:induction false} Whole(s: State, s': State)
    requires Inv(s) && VersOk(s') && Fewer(s'.vers, s.vers)
    requires s.disk <= s'.disk && s.next <= s'.next && NumbersOk(s') && PendingOk(s') && FlushOk(s') &&
             FlushUnlisted(s') && JobOk(s')
    ensures Inv(s')
  {
    hide Lists;
    forall v, n | v in s'.vers && Lists(s'.vers[v].levels, n) ensures n in s'.disk {
      assert v in s.vers && Lists(s.vers[v].levels, n);
    }
  }

  lemma {:induction false} NewIsUnlisted(s: State, n: nat)
    requires TablesThere(s) && n !in s.disk
    ensures !Listed(s.vers, n)
  {
    hide Lists;
  }

  lemma {:induction false} FlushBeginKeeps(s: State, s': State)
    requires Inv(s) && Next(s, FlushBegin, s')
    ensures Inv(s')
  {
    hide Lists;
    forall v ensures VerOk(s', v) { assert VerOk(s, v); }
    NewIsUnlisted(s, s.next);
    FewerUnlisted(s'.vers, s.vers, s.next);
    if s.job.Job? { assert VerOk(s, s.job.base); }
    Whole(s, s');
  }

  lemma {:induction false} FlushWriteKeeps(s: State, s': State)
    requires Inv(s) && Next(s, FlushWrite, s')
    ensures Inv(s')
  {
    hide Lists, Listed;
    forall v ensures VerOk(s', v) { assert VerOk(s, v); }
    Whole(s, s');
  }

  lemma {:induction false} FlushBuiltKeeps(s: State, s': State)
    requires Inv(s) && Next(s, FlushBuilt, s')
    ensures Inv(s')
  {
    hide Lists;
    forall v ensures VerOk(s', v) { assert VerOk(s, v); }
    FewerUnlisted(s'.vers, s.vers, s.flush.n);
    if s.job.Job? { assert VerOk(s', s.job.base) && Refs(s', s.job.base) > 0; }
    Whole(s, s');
  }

  lemma {:induction false} FlushFailKeeps(s: State, s': State)
    requires Inv(s) && Next(s, FlushFail, s')
    ensures Inv(s')
  {
    hide Lists, Listed;
    forall v ensures VerOk(s', v) { assert VerOk(s, v); }
    Whole(s, s');
  }

  /** A new version whose tables are there takes the place of the current one. */
  lemma {:induction false} InstallKeeps(s: State, levels: seq<seq<nat>>, flush: Flush, job: Job, s': State)
    requires Inv(s) && (s.flush.NoFlush? || s.flush.Built?) && flush.NoFlush? &&
             forall n :: Lists(levels, n) ==> n in s.disk
    requires job == s.job || (s.job.Job? && job == s.job.(installed := true))
    requires s' == Installed(s, levels).(flush := flush, job := job)
    ensures Inv(s')
  {
    hide Lists, Listed;
    forall v ensures VerOk(s', v) {
      assert VerOk(s, v) && VerOk(s, s.unused);
    }
    if s.job.Job? {
      assert VerOk(s', s.job.base) && VerOk(s, s.job.base);
      assert s.job.base != s.unused;
    }
    forall v, n | v in s'.vers && Lists(s'.vers[v].levels, n) ensures n in s'.disk {
      if v != s.unused { assert v in s.vers && Lists(s.vers[v].levels, n); }
    }
  }

  lemma {:induction false} FlushInstallKeeps(s: State, levels: seq<seq<nat>>, s': State)
    requires Inv(s) && Next(s, FlushInstall(levels), s')
    ensures Inv(s')
  {
    hide Lists, Listed, VerOk;
    InstallKeeps(s, levels, NoFlush, s.job, s');
  }

  lemma {:induction false} JobInstallKeeps(s: State, a: Step, s': State)
    requires Inv(s) && Next(s, a, s') && (a.JobInstall? || a.JobMove?)
    ensures Inv(s')
  {
    hide Lists, Listed, VerOk;
    InstallKeeps(s, a.levels, NoFlush, s.job.(installed := true), s');
  }

  lemma {:induction false} JobBeginKeeps(s: State, inputs: set<nat>, s': State)
    requires Inv(s) && Next(s, JobBegin(inputs), s')
    ensures Inv(s')
  {
    hide Lists, Listed;
    forall v ensures VerOk(s', v) { assert VerOk(s, v); }
    Whole(s, s');
  }

  lemma {:induction false} JobOpenKeeps(s: State, s': State)
    requires Inv(s) && Next(s, JobOpen, s')
    ensures Inv(s')
  {
    hide Lists, Listed;
    forall v ensures VerOk(s', v) { assert VerOk(s, v); }
    Whole(s, s');
  }

  lemma {:induction false} JobEndKeeps(s: State, s': State)
    requires Inv(s) && Next(s, JobEnd, s')
    ensures Inv(s')
  {
    hide Lists, Listed;
    forall v ensures VerOk(s', v) { assert VerOk(s, v); }
    Whole(s, s');
  }

  /** The collector keeps just what it must: no table that a version lists, an input of
      the running compaction or a pending output goes, and everything else does. */
  lemma {:induction false} CollectsGarbage(s: State, s': State, n: nat)
    requires Inv(s) && Next(s, Collect, s') && !s.error && n in s.disk
    ensures n in s'.disk <==> Listed(s.vers, n) || n in s.pending
    ensures s.job.Job? && (n in s.job.inputs || n in s.job.outputs) ==> n in s'.disk
    ensures forall v :: v in s.vers && Lists(s.vers[v].levels, n) ==> n in s'.disk
  {
    hide Lists;
    if s.job.Job? && n in s.job.inputs { assert s.job.base in s.vers && Lists(s.vers[s.job.base].levels, n); }
  }

  lemma {:induction false} CollectKeeps(s: State, s': State)
    requires Inv(s) && Next(s, Collect, s')
    ensures Inv(s')
  {
    if !s.error {
      forall v ensures VerOk(s', v) { assert VerOk(s, v); }
      forall v, n | v in s'.vers && Lists(s'.vers[v].levels, n) ensures n in s'.disk { CollectsGarbage(s, s', n); }
      if s.job.Job? {
        forall n | n in s.job.outputs ensures n in s'.disk { CollectsGarbage(s, s', n); }
      }
    }
  }

  lemma {:induction false} NextKeeps(s: State, a: Step, s': State)
    requires Inv(s) && Next(s, a, s')
    ensures Inv(s')
  {
    hide Inv, Next;
    match a
    case Acquire => AcquireKeeps(s, s');
    case Release(v) => ReleaseKeeps(s, v, s');
    case FlushBegin => FlushBeginKeeps(s, s');
    case FlushWrite => FlushWriteKeeps(s, s');
    case FlushBuilt => FlushBuiltKeeps(s, s');
    case FlushInstall(levels) => FlushInstallKeeps(s, levels, s');
    case FlushFail => FlushFailKeeps(s, s');
    case JobBegin(inputs) => JobBeginKeeps(s, inputs, s');
    case JobOpen => JobOpenKeeps(s, s');
    case JobInstall(levels) => JobInstallKeeps(s, a, s');
    case JobMove(levels) => JobInstallKeeps(s, a, s');
    case JobEnd => JobEndKeeps(s, s');
    case Collect => CollectKeeps(s, s');
  }

  ghost predicate IsRun(states: seq<State>, steps: seq<Step>) {
    && |states| == |steps| + 1 && Init(states[0])
    && forall i :: 0 <= i < |steps| ==> Next(states[i], steps[i], states[i + 1])
  }

  lemma {:induction false} InitInv(s: State)
    requires Init(s)
    ensures Inv(s)
  {
  }

  lemma {:induction false} RunInv(states: seq<State>, steps: seq<Step>, i: nat)
    requires IsRun(states, steps) && i < |states|
    ensures Inv(states[i])
  {
    hide Inv, Next, Init;
    if i == 0 {
      InitInv(states[0]);
    } else {
      RunInv(states, steps, i - 1);
      NextKeeps(states[i - 1], steps[i - 1], states[i]);
    }
  }

  /** In every state of every run: a version that a reader holds, or that is current, is
      still there with all its tables on disk, and so are the inputs and outputs of the
      running compaction. */
  lemma {:induction false} NothingLiveIsDeleted(states: seq<State>, steps: seq<Step>, i: nat, v: Vid, n: nat)
    requires IsRun(states, steps) && i < |states|
    ensures var s := states[i];
            && (s.held[v] > 0 || v == s.current ==> v in s.vers)
            && (v in s.vers && Lists(s.vers[v].levels, n) ==> n in s.disk)
            && (s.job.Job? && (n in s.job.inputs || n in s.job.outputs) ==> n in s.disk)
  {
    RunInv(states, steps, i);
    assert VerOk(states[i], v);
  }

  /** Between the end of its writing and its installation a flushed table is protected by
      nothing: a collection by anybody else would take it exactly then. */
  lemma {:induction false} UnprotectedExactly(s: State)
    requires Inv(s) && !s.error
    ensures (forall n ::
               n in s.disk && (Listed(s.vers, n) || n in s.pending || (!s.flush.NoFlush? && n == s.flush.n)) ==>
                 n in Collected(s).disk)
            <==> !s.flush.Built?
  {
    hide Listed;
    if s.flush.Built? {
      assert s.flush.n in s.disk && s.flush.n !in Collected(s).disk;
    }
  }

  // ----- AddLiveFiles and DeleteObsoleteFiles -----

  method AddLevel(files: seq<nat>, live0: set<nat>) returns (live: set<nat>)
    ensures live == live0 + set n | n in files
  {
    live := live0;
    for i := 0 to |files|
      invariant live == live0 + set n | n in files[..i]
    {
      live := live + {files[i]};
    }
    assert files[..|files|] == files;
  }

  method AddVersion(levels: seq<seq<nat>>, live0: set<nat>) returns (live: set<nat>)
    ensures forall n :: n in live <==> n in live0 || Lists(levels, n)
  {
    live := live0;
    for l := 0 to |levels|
      invariant forall n :: n in live <==> n in live0 || Lists(levels[..l], n)
    {
      ghost var before := live;
      live := AddLevel(levels[l], live);
      forall n ensures n in live <==> n in live0 || Lists(levels[..l + 1], n) { ListsNext(levels, l, n); }
    }
    assert levels[..|levels|] == levels;
  }

  lemma {:induction false} ListsNext(levels: seq<seq<nat>>, l: nat, n: nat)
    requires l < |levels|
    ensures Lists(levels[..l + 1], n) <==> Lists(levels[..l], n) || n in levels[l]
  {
    var more := levels[..l + 1];
    if n in levels[l] { assert n in more[l]; }
    if Lists(levels[..l], n) {
      var k :| 0 <= k < l && n in levels[..l][k];
      assert n in more[k];
    }
  }

  /** AddLiveFiles: goes through the list of versions. */
  method AddLiveFiles(vers: Vers, list: seq<Vid>, live0: set<nat>) returns (live: set<nat>)
    requires forall v :: v in list <==> v in vers
    ensures forall n :: n in live <==> n in live0 || Listed(vers, n)
  {
    hide Lists;
    live := live0;
    for i := 0 to |list|
      invariant forall n :: n in live <==> n in live0 || exists j :: 0 <= j < i && Lists(vers[list[j]].levels, n)
    {
      live := AddVersion(vers[list[i]].levels, live);
    }
    forall n ensures (exists j :: 0 <= j < |list| && Lists(vers[list[j]].levels, n)) <==> Listed(vers, n) {
      if Listed(vers, n) {
        var v :| v in vers && Lists(vers[v].levels, n);
        var j :| 0 <= j < |list| && list[j] == v;
      }
    }
  }

  datatype Kind = LogFile | DescriptorFile | TableFile | TempFile | CurrentFile | LockFile | InfoLogFile

  /** A name in the directory of the database, as ParseFileName reads it. */
  datatype Name = Other(text: string) | Known(kind: Kind, number: nat)

  /** What must stay: the log being written and the one before it, this and newer
      manifests, tables and temporary files that a version lists or that are pending, and
      all files of other kinds. */
  predicate Needed(x: Name, s: State, logNumber: nat, prevLogNumber: nat, manifestNumber: nat) {
    x.Known? ==>
      && (x.kind.LogFile? ==> x.number >= logNumber || x.number == prevLogNumber)
      && (x.kind.DescriptorFile? ==> x.number >= manifestNumber)
      && (x.kind.TableFile? || x.kind.TempFile? ==> x.number in s.pending || Listed(s.vers, x.number))
  }

  /** The same decision, with the live files gathered in a set. */
  predicate Keep(x: Name, live: set<nat>, logNumber: nat, prevLogNumber: nat, manifestNumber: nat) {
    match x
    case Other(_) => true
    case Known(kind, n) =>
      match kind
      case LogFile => n >= logNumber || n == prevLogNumber
      case DescriptorFile => n >= manifestNumber
      case TableFile => n in live
      case TempFile => n in live
      case _ => true
  }

  /** DeleteObsoleteFiles over a directory: afterwards the tables are those of the
      Collect step. */
  method DeleteObsoleteFiles(s: State, list: seq<Vid>, names: seq<Name>, logNumber: nat, prevLogNumber: nat,
                             manifestNumber: nat)
    returns (left: seq<Name>)
    requires (forall v :: v in list <==> v in s.vers) && s.disk == set x | x in names && x.Known? &&
             x.kind.TableFile? :: x.number
    ensures s.error ==> left == names
    ensures !s.error ==> forall x :: x in left <==> x in names && Needed(x, s, logNumber, prevLogNumber, manifestNumber)
    ensures (set x | x in left && x.Known? && x.kind.TableFile? :: x.number) == Collected(s).disk
  {
    left := names;
    if s.error {
      return;
    }
    var live := AddLiveFiles(s.vers, list, s.pending);
    left := [];
    for i := 0 to |names|
      invariant forall x :: x in left <==> x in names[..i] && Keep(x, live, logNumber, prevLogNumber, manifestNumber)
    {
      if Keep(names[i], live, logNumber, prevLogNumber, manifestNumber) {
        left := left + [names[i]];
      }
    }
    assert names[..|names|] == names;
    SameTables(s, names, left, live, logNumber, prevLogNumber, manifestNumber);
  }

  lemma {:induction false} SameTables(s: State, names: seq<Name>, left: seq<Name>, live: set<nat>, logNumber: nat,
                                      prevLogNumber: nat, manifestNumber: nat)
    requires !s.error && s.disk == set x | x in names && x.Known? && x.kind.TableFile? :: x.number
    requires forall n :: n in live <==> n in s.pending || Listed(s.vers, n)
    requires forall x :: x in left <==> x in names && Keep(x, live, logNumber, prevLogNumber, manifestNumber)
    ensures (set x | x in left && x.Known? && x.kind.TableFile? :: x.number) == Collected(s).disk
  {
    hide Listed;
    forall n ensures n in (set x | x in left && x.Known? && x.kind.TableFile? :: x.number) <==> n in Collected(s).disk {
      if n in Collected(s).disk {
        assert Known(TableFile, n) in names;
        assert Known(TableFile, n) in left;
      }
    }
  }
}

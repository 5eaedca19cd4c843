/** Versions of the store (db/version_set.cc): files per level, what a version
    contains, and the level-by-level lookup of Version::Get. */
module Versions {
  import opened Keys

  const KNumLevels: nat := 7

  /** FileMetaData. */
  datatype FileMeta = FileMeta(number: nat, size: nat, smallest: InternalKey, largest: InternalKey)

  datatype Version = Version(levels: seq<seq<FileMeta>>)

  /** Table files by number; a table is never changed once written. */
  type Disk = map<nat, seq<Entry>>

  /** The metadata of `f` describes the table on disk. */
  predicate Stored(disk: Disk, f: FileMeta) {
    && f.number in disk
    && var es := disk[f.number];
    && es != []
    && Versioned(es)
    && f.smallest == es[0].key
    && f.largest == es[|es| - 1].key
  }

  ghost predicate InFile(disk: Disk, f: FileMeta, e: Entry) {
    f.number in disk && e in disk[f.number]
  }

  ghost predicate InLevel(disk: Disk, files: seq<FileMeta>, e: Entry) {
    exists i :: 0 <= i < |files| && InFile(disk, files[i], e)
  }

  ghost predicate InVersion(disk: Disk, v: Version, e: Entry) {
    exists l :: 0 <= l < |v.levels| && InLevel(disk, v.levels[l], e)
  }

  ghost function Contents(disk: Disk, v: Version): iset<Entry> {
    iset e | InVersion(disk, v, e)
  }

  // ----- the invariant -----

  /** Levels >= 1: files in ascending order with disjoint internal key ranges. */
  predicate Disjoint(files: seq<FileMeta>) {
    forall i, j :: 0 <= i < j < |files| ==> Precedes(files[i].largest, files[j].smallest)
  }

  /** Every version of a user key in the first list is newer than every version
      of it in the second. */
  ghost predicate Newer(disk: Disk, upper: seq<FileMeta>, lower: seq<FileMeta>) {
    forall a, b :: InLevel(disk, upper, a) && InLevel(disk, lower, b) && a.key.user == b.key.user
      ==> a.key.sequence > b.key.sequence
  }

  ghost predicate NewerFile(disk: Disk, f: FileMeta, g: FileMeta) {
    forall a, b :: InFile(disk, f, a) && InFile(disk, g, b) && a.key.user == b.key.user
      ==> a.key.sequence > b.key.sequence
  }

  /** Level 0: files may overlap; a larger file number means newer data. */
  ghost predicate NumberedByAge(disk: Disk, files: seq<FileMeta>) {
    && DistinctNumbers(files)
    && forall i, j :: 0 <= i < |files| && 0 <= j < |files| && files[i].number > files[j].number
         ==> NewerFile(disk, files[i], files[j])
  }

  ghost predicate AllStored(disk: Disk, files: seq<FileMeta>) {
    forall i {:trigger Stored(disk, files[i])} :: 0 <= i < |files| ==> Stored(disk, files[i])
  }

  /** Each level for itself is in order. */
  ghost predicate LevelsOk(disk: Disk, v: Version) {
    && |v.levels| == KNumLevels
    && (forall l :: 0 <= l < KNumLevels ==> AllStored(disk, v.levels[l]))
    && NumberedByAge(disk, v.levels[0])
    && (forall l :: 1 <= l < KNumLevels ==> Disjoint(v.levels[l]))
  }

  /** And shallower data is newer. */
  ghost predicate Ok(disk: Disk, v: Version) {
    && LevelsOk(disk, v)
    && (forall l, m :: 0 <= l < m < KNumLevels ==> Newer(disk, v.levels[l], v.levels[m]))
  }

  // ----- what a read should answer -----

  datatype Answer = Found(value: Bytes) | NotFound

  /** `e` is the newest version of `k` that a reader at sequence `s` may see. */
  ghost predicate IsNewest(all: iset<Entry>, k: UserKey, s: nat, e: Entry) {
    && e in all && e.key.user == k && e.key.sequence <= s
    && forall x :: x in all && x.key.user == k && x.key.sequence <= s && x != e
         ==> x.key.sequence < e.key.sequence
  }

  ghost predicate NoneVisible(all: iset<Entry>, k: UserKey, s: nat) {
    forall x :: x in all ==> !(x.key.user == k && x.key.sequence <= s)
  }

  /** What a reader who finds `e` is told. */
  function AnswerOf(e: Entry): Answer { if e.key.kind.Value? then Found(e.value) else NotFound }

  /** The read (k, s) over a set of entries: the value of the newest visible
      version; nothing when there is none or it is a deletion. */
  ghost predicate Answers(all: iset<Entry>, k: UserKey, s: nat, r: Answer) {
    || (r.NotFound? && NoneVisible(all, k, s))
    || (exists e :: IsNewest(all, k, s, e) && r == AnswerOf(e))
  }

  /** Level `l` is the first with a version that the reader may see; past the end if there
      is none. */
  ghost predicate FirstAt(ls: seq<iset<Entry>>, k: UserKey, s: nat, l: nat) {
    && l <= |ls| && (forall m :: 0 <= m < l ==> NoneVisible(ls[m], k, s))
    && (l < |ls| ==> !NoneVisible(ls[l], k, s))
  }

  /** The read (k, s) level by level: the first level that has a visible version decides,
      with the newest it has. */
  ghost predicate FirstAnswers(ls: seq<iset<Entry>>, k: UserKey, s: nat, r: Answer) {
    exists l: nat :: FirstAt(ls, k, s, l) && if l == |ls| then r.NotFound? else Decides(ls[l], k, s, r)
  }

  ghost predicate Decides(all: iset<Entry>, k: UserKey, s: nat, r: Answer) {
    exists e :: IsNewest(all, k, s, e) && r == AnswerOf(e)
  }

  lemma {:induction false} AnswersUnique(all: iset<Entry>, k: UserKey, s: nat, r: Answer, r': Answer)
    requires Answers(all, k, s, r) && Answers(all, k, s, r')
    ensures r == r'
  {
    if !NoneVisible(all, k, s) {
      var e :| IsNewest(all, k, s, e) && r == AnswerOf(e);
      var e' :| IsNewest(all, k, s, e') && r' == AnswerOf(e');
      assert e == e';
    }
  }

  // ----- FindFile -----

  /** Where the binary search between `left` and `right` ends, whatever the order of the
      files. */
  function Search(files: seq<FileMeta>, key: InternalKey, left: nat, right: nat): (index: nat)
    requires left <= right <= |files|
    ensures index <= |files|
    decreases right - left
  {
    if left >= right then right
    else
      var mid := (left + right) / 2;
      if Before(files[mid].largest, key) then Search(files, key, mid + 1, right) else Search(files, key, left, mid)
  }

  predicate LargestUp(files: seq<FileMeta>) {
    forall i, j :: 0 <= i < j < |files| ==> Before(files[i].largest, files[j].largest)
  }

  /** Files in front of place `n` end before `key`; those from there on do not. */
  predicate EndBefore(files: seq<FileMeta>, key: InternalKey, n: nat) {
    n <= |files| && forall i :: 0 <= i < n ==> Before(files[i].largest, key)
  }

  predicate EndAfter(files: seq<FileMeta>, key: InternalKey, n: nat) {
    forall i :: n <= i < |files| ==> !Before(files[i].largest, key)
  }

  lemma {:induction false} Bisect(files: seq<FileMeta>, key: InternalKey, mid: nat)
    requires LargestUp(files) && mid < |files|
    ensures if Before(files[mid].largest, key) then EndBefore(files, key, mid + 1) else EndAfter(files, key, mid)
  {
  }

  /** The index of the first file whose largest key is at or after `key`. */
  method FindFile(files: seq<FileMeta>, key: InternalKey) returns (index: nat)
    ensures index == Search(files, key, 0, |files|)
    ensures LargestUp(files) ==> EndBefore(files, key, index) && EndAfter(files, key, index)
  {
    var left, right := 0, |files|;
    hide LargestUp, EndBefore, EndAfter;
    Whole(files, key);
    while left < right
      invariant 0 <= left <= right <= |files|
      invariant Search(files, key, left, right) == Search(files, key, 0, |files|)
      invariant LargestUp(files) ==> EndBefore(files, key, left) && EndAfter(files, key, right)
    {
      var mid := (left + right) / 2;
      if LargestUp(files) { Bisect(files, key, mid); }
      if Before(files[mid].largest, key) {
        left := mid + 1;
      } else {
        right := mid;
      }
    }
    index := right;
  }

  lemma {:induction false} Whole(files: seq<FileMeta>, key: InternalKey)
    ensures EndBefore(files, key, 0) && EndAfter(files, key, |files|)
  {
  }

  // ----- one table -----

  datatype Lookup = Miss | Hit(entry: Entry)

  /** Where an iterator over `es` stands after Seek(target). */
  function SeekIndex(es: seq<Entry>, target: InternalKey): (p: nat)
    ensures p <= |es|
    ensures forall i :: 0 <= i < p ==> Before(es[i].key, target)
    ensures p < |es| ==> !Before(es[p].key, target)
  {
    if es == [] || !Before(es[0].key, target) then 0
    else 1 + SeekIndex(es[1..], target)
  }

  /** The entry that Table::InternalGet or MemTable::Get hands over: the first
      at or after the lookup key, if it has the sought user key. */
  function Probe(es: seq<Entry>, k: UserKey, s: nat): (r: Lookup) {
    var p := SeekIndex(es, LookupKey(k, s));
    if p < |es| && es[p].key.user == k then Hit(es[p]) else Miss
  }

  ghost function Elements(es: seq<Entry>): iset<Entry> { iset e | e in es }

  /** Over a sorted table the probe finds the newest visible version, and misses
      only when there is none. */
  lemma {:induction false} ProbeIsNewest(es: seq<Entry>, k: UserKey, s: nat)
    requires Versioned(es)
    ensures Probe(es, k, s).Hit? ==> IsNewest(Elements(es), k, s, Probe(es, k, s).entry)
    ensures Probe(es, k, s).Miss? <==> NoneVisible(Elements(es), k, s)
  {
    var p := SeekIndex(es, LookupKey(k, s));
    forall x | x in Elements(es) && x.key.user == k && x.key.sequence <= s
      ensures p < |es| && es[p].key.user == k && (x == es[p] || x.key.sequence < es[p].key.sequence)
    {
      var i :| 0 <= i < |es| && es[i] == x;
      assert !Before(x.key, LookupKey(k, s));
      assert p <= i;
      if p < i { assert Precedes(es[p].key, es[i].key); }
    }
  }

  // ----- the files of one level that can hold a visible version of a key -----

  ghost predicate Visible(e: Entry, k: UserKey, s: nat) {
    e.key.user == k && e.key.sequence <= s
  }

  /** `files` hold `e` or a newer visible version. */
  ghost predicate Covered(disk: Disk, files: seq<FileMeta>, k: UserKey, s: nat, e: Entry) {
    exists x :: InLevel(disk, files, x) && Visible(x, k, s) && (x == e || x.key.sequence > e.key.sequence)
  }

  /** `cands` are files of the level, hold the newest it has for (k, s), and come
      newest first. */
  ghost predicate Candidates(disk: Disk, files: seq<FileMeta>, cands: seq<FileMeta>, k: UserKey, s: nat) {
    && (forall i :: 0 <= i < |cands| ==> cands[i] in files)
    && (forall e {:trigger Covered(disk, cands, k, s, e)} :: InLevel(disk, files, e) && Visible(e, k, s) ==>
          Covered(disk, cands, k, s, e))
    && (forall i, j :: 0 <= i < j < |cands| ==> NewerFile(disk, cands[i], cands[j]))
  }

  predicate DistinctNumbers(files: seq<FileMeta>) {
    forall i, j :: 0 <= i < j < |files| ==> files[i].number != files[j].number
  }

  predicate NewestFirst(files: seq<FileMeta>) {
    forall i, j :: 0 <= i < j < |files| ==> files[i].number > files[j].number
  }

  /** One step of std::sort(tmp, NewestFirst), taken as an insertion sort. */
  method InsertByNumber(files: seq<FileMeta>, f: FileMeta) returns (out: seq<FileMeta>)
    requires NewestFirst(files)
    requires forall g :: g in files ==> g.number != f.number
    ensures NewestFirst(out)
    ensures forall g :: g in out <==> g in files || g == f
  {
    var p := 0;
    while p < |files| && files[p].number > f.number
      invariant 0 <= p <= |files|
      invariant forall i :: 0 <= i < p ==> files[i].number > f.number
    {
      p := p + 1;
    }
    assert forall i :: p <= i < |files| ==> files[i].number < f.number;
    out := files[..p] + [f] + files[p..];
    SplitMembers(files, p, f);
    assert forall i :: 0 <= i < p ==> out[i] == files[i];
    assert forall i :: p < i < |out| ==> out[i] == files[i - 1];
  }

  lemma {:induction false} SplitMembers<T>(xs: seq<T>, p: nat, y: T)
    requires p <= |xs|
    ensures forall x :: x in xs[..p] + [y] + xs[p..] <==> x in xs || x == y
  {
    assert xs == xs[..p] + xs[p..];
  }

  method SortNewestFirst(files: seq<FileMeta>) returns (out: seq<FileMeta>)
    requires DistinctNumbers(files)
    ensures NewestFirst(out)
    ensures forall f :: f in out <==> f in files
  {
    out := [];
    for n := 0 to |files|
      invariant NewestFirst(out)
      invariant forall f :: f in out <==> f in files[..n]
    {
      out := InsertByNumber(out, files[n]);
    }
  }

  /** The files whose user key range holds `k`, in the order of the level. */
  method FilesAround(files: seq<FileMeta>, k: UserKey) returns (tmp: seq<FileMeta>)
    requires DistinctNumbers(files)
    ensures DistinctNumbers(tmp)
    ensures forall f :: f in tmp <==> f in files && f.smallest.user <= k <= f.largest.user
  {
    tmp := [];
    for i := 0 to |files|
      invariant DistinctNumbers(tmp)
      invariant forall f :: f in tmp <==> f in files[..i] && f.smallest.user <= k <= f.largest.user
    {
      if k >= files[i].smallest.user && k <= files[i].largest.user {
        tmp := tmp + [files[i]];
      }
    }
  }

  /** Level 0: every file whose user key range holds `k`. */
  method LevelZeroCandidates(disk: Disk, files: seq<FileMeta>, k: UserKey, ghost s: nat) returns (cands: seq<FileMeta>)
    requires AllStored(disk, files) && NumberedByAge(disk, files)
    ensures Candidates(disk, files, cands, k, s)
  {
    var tmp := FilesAround(files, k);
    cands := SortNewestFirst(tmp);
    LevelZeroCovered(disk, files, cands, k, s);
  }

  lemma {:induction false} LevelZeroCovered(disk: Disk, files: seq<FileMeta>, cands: seq<FileMeta>, k: UserKey, s: nat)
    requires AllStored(disk, files) && NumberedByAge(disk, files)
    requires NewestFirst(cands)
    requires forall f :: f in cands <==> f in files && f.smallest.user <= k <= f.largest.user
    ensures Candidates(disk, files, cands, k, s)
  {
    forall e | InLevel(disk, files, e) && Visible(e, k, s) ensures Covered(disk, cands, k, s, e) {
      var i :| 0 <= i < |files| && InFile(disk, files[i], e);
      InRange(disk, files[i], e);
      InMember(disk, cands, files[i], e);
    }
    forall i, j | 0 <= i < j < |cands| ensures NewerFile(disk, cands[i], cands[j]) {
      assert cands[i] in files && cands[j] in files;
    }
  }

  lemma {:induction false} InMember(disk: Disk, files: seq<FileMeta>, f: FileMeta, e: Entry)
    requires f in files && InFile(disk, f, e)
    ensures InLevel(disk, files, e)
  {
    var i :| 0 <= i < |files| && files[i] == f;
  }

  /** Every entry of a stored file lies within the file's key range. */
  lemma {:induction false} InRange(disk: Disk, f: FileMeta, e: Entry)
    requires Stored(disk, f) && InFile(disk, f, e)
    ensures e.key == f.smallest || Precedes(f.smallest, e.key)
    ensures e.key == f.largest || Precedes(e.key, f.largest)
    ensures f.smallest.user <= e.key.user <= f.largest.user
  {
    var es := disk[f.number];
    var i :| 0 <= i < |es| && es[i] == e;
  }

  /** Levels >= 1: the one file that FindFile selects, unless it starts past `k`. */
  function DeepChoice(files: seq<FileMeta>, k: UserKey, s: nat): seq<FileMeta> {
    var index := Search(files, LookupKey(k, s), 0, |files|);
    if index >= |files| || k < files[index].smallest.user then [] else [files[index]]
  }

  method DeepCandidates(ghost disk: Disk, files: seq<FileMeta>, k: UserKey, s: nat) returns (cands: seq<FileMeta>)
    ensures cands == DeepChoice(files, k, s)
    ensures AllStored(disk, files) && Disjoint(files) ==> Candidates(disk, files, cands, k, s)
  {
    var index := FindFile(files, LookupKey(k, s));
    if index >= |files| || k < files[index].smallest.user {
      cands := [];
    } else {
      cands := [files[index]];
    }
    if AllStored(disk, files) && Disjoint(files) {
      LargestAscend(disk, files);
      DeepCovered(disk, files, k, s, index, cands);
    }
  }

  lemma {:induction false} DeepCovered(disk: Disk, files: seq<FileMeta>, k: UserKey, s: nat, index: nat,
                                       cands: seq<FileMeta>)
    requires AllStored(disk, files) && Disjoint(files)
    requires EndBefore(files, LookupKey(k, s), index) && EndAfter(files, LookupKey(k, s), index)
    requires cands == if index >= |files| || k < files[index].smallest.user then [] else [files[index]]
    ensures Candidates(disk, files, cands, k, s)
  {
    forall e | InLevel(disk, files, e) && Visible(e, k, s) ensures Covered(disk, cands, k, s, e) {
      var i :| 0 <= i < |files| && InFile(disk, files[i], e);
      InRange(disk, files[i], e);
      assert !Before(files[i].largest, LookupKey(k, s)) && index <= i;
      assert Stored(disk, files[index]);
      var last := disk[files[index].number][|disk[files[index].number]| - 1];
      InRange(disk, files[index], last);
      if index < i {
        assert Precedes(files[index].largest, files[i].smallest);
        InMember(disk, cands, files[index], last);
      } else {
        InMember(disk, cands, files[i], e);
      }
    }
  }

  lemma {:induction false} LargestAscend(disk: Disk, files: seq<FileMeta>)
    requires AllStored(disk, files) && Disjoint(files)
    ensures LargestUp(files)
  {
    forall i, j | 0 <= i < j < |files| ensures Before(files[i].largest, files[j].largest) {
      assert Stored(disk, files[j]);
      InRange(disk, files[j], disk[files[j].number][|disk[files[j].number]| - 1]);
    }
  }

  // ----- Version::Get -----

  ghost function LevelSet(disk: Disk, files: seq<FileMeta>): iset<Entry> {
    iset e | InLevel(disk, files, e)
  }

  ghost predicate NoneInFile(disk: Disk, f: FileMeta, k: UserKey, s: nat) {
    forall x :: InFile(disk, f, x) ==> !Visible(x, k, s)
  }

  ghost predicate NewestInFile(disk: Disk, f: FileMeta, k: UserKey, s: nat, h: Entry) {
    && InFile(disk, f, h) && Visible(h, k, s)
    && forall x :: InFile(disk, f, x) && Visible(x, k, s) && x != h ==> x.key.sequence < h.key.sequence
  }

  /** Probing one table of the level. */
  method SearchTable(disk: Disk, f: FileMeta, k: UserKey, s: nat) returns (r: Lookup)
    requires Stored(disk, f)
    ensures r.Miss? ==> NoneInFile(disk, f, k, s)
    ensures r.Hit? ==> NewestInFile(disk, f, k, s, r.entry)
  {
    r := Probe(disk[f.number], k, s);
    ProbeIsNewest(disk[f.number], k, s);
    assert forall x :: InFile(disk, f, x) <==> x in Elements(disk[f.number]);
  }

  /** The inner loop of Version::Get: probe the candidates in turn. */
  method SearchLevel(disk: Disk, ghost files: seq<FileMeta>, cands: seq<FileMeta>, k: UserKey,
                     s: nat) returns (r: Lookup)
    requires AllStored(disk, files) && Candidates(disk, files, cands, k, s)
    ensures r.Miss? ==> NoneVisible(LevelSet(disk, files), k, s)
    ensures r.Hit? ==> IsNewest(LevelSet(disk, files), k, s, r.entry)
  {
    for i := 0 to |cands|
      invariant forall j :: 0 <= j < i ==> NoneInFile(disk, cands[j], k, s)
    {
      r := SearchTable(disk, cands[i], k, s);
      if r.Hit? {
        HitIsNewest(disk, files, cands, k, s, i, r.entry);
        return;
      }
    }
    r := Miss;
    MissIsNone(disk, files, cands, k, s);
  }

  lemma {:induction false} HitIsNewest(disk: Disk, files: seq<FileMeta>, cands: seq<FileMeta>, k: UserKey, s: nat,
                                       i: nat, h: Entry)
    requires Candidates(disk, files, cands, k, s)
    requires i < |cands| && NewestInFile(disk, cands[i], k, s, h)
    requires forall j :: 0 <= j < i ==> NoneInFile(disk, cands[j], k, s)
    ensures IsNewest(LevelSet(disk, files), k, s, h)
  {
    InMember(disk, files, cands[i], h);
    forall x | InLevel(disk, files, x) && Visible(x, k, s) && x != h ensures x.key.sequence < h.key.sequence {
      assert Covered(disk, cands, k, s, x);
      var y :| InLevel(disk, cands, y) && Visible(y, k, s) && (y == x || y.key.sequence > x.key.sequence);
      var j :| 0 <= j < |cands| && InFile(disk, cands[j], y);
      if i < j { assert NewerFile(disk, cands[i], cands[j]); }
    }
  }

  lemma {:induction false} MissIsNone(disk: Disk, files: seq<FileMeta>, cands: seq<FileMeta>, k: UserKey, s: nat)
    requires Candidates(disk, files, cands, k, s)
    requires forall j :: 0 <= j < |cands| ==> NoneInFile(disk, cands[j], k, s)
    ensures NoneVisible(LevelSet(disk, files), k, s)
  {
    forall x | InLevel(disk, files, x) ensures !Visible(x, k, s) {
      assert Visible(x, k, s) ==> Covered(disk, cands, k, s, x);
    }
  }

  /** The levels as sets. */
  ghost function Sets(disk: Disk, v: Version): seq<iset<Entry>> {
    seq(|v.levels|, l requires 0 <= l < |v.levels| => LevelSet(disk, v.levels[l]))
  }

  /** Version::Get answers from the first level that has a visible version of `k`. Where
      shallower data is newer, that is the newest of all the version holds. */
  method Get(disk: Disk, v: Version, k: UserKey, s: nat) returns (r: Answer)
    requires LevelsOk(disk, v)
    ensures FirstAnswers(Sets(disk, v), k, s, r)
    ensures Ok(disk, v) ==> Answers(Contents(disk, v), k, s, r)
  {
    for level := 0 to KNumLevels
      invariant forall l :: 0 <= l < level ==> NoneVisible(LevelSet(disk, v.levels[l]), k, s)
    {
      var cands;
      if level == 0 {
        cands := LevelZeroCandidates(disk, v.levels[0], k, s);
      } else {
        cands := DeepCandidates(disk, v.levels[level], k, s);
      }
      var hit := SearchLevel(disk, v.levels[level], cands, k, s);
      if hit.Hit? {
        r := AnswerOf(hit.entry);
        assert FirstAt(Sets(disk, v), k, s, level) && Decides(Sets(disk, v)[level], k, s, r);
        if Ok(disk, v) { NewestOfVersion(disk, v, k, s, level, hit.entry); }
        return;
      }
    }
    r := NotFound;
    assert FirstAt(Sets(disk, v), k, s, KNumLevels);
    assert NoneVisible(Contents(disk, v), k, s);
  }

  lemma {:induction false} NewestOfVersion(disk: Disk, v: Version, k: UserKey, s: nat, level: nat, h: Entry)
    requires Ok(disk, v) && level < KNumLevels
    requires forall l :: 0 <= l < level ==> NoneVisible(LevelSet(disk, v.levels[l]), k, s)
    requires IsNewest(LevelSet(disk, v.levels[level]), k, s, h)
    ensures IsNewest(Contents(disk, v), k, s, h)
  {
    assert InLevel(disk, v.levels[level], h);
    forall x | x in Contents(disk, v) && Visible(x, k, s) && x != h ensures x.key.sequence < h.key.sequence {
      var l :| 0 <= l < |v.levels| && InLevel(disk, v.levels[l], x);
      assert x in LevelSet(disk, v.levels[l]);
      if level < l { assert Newer(disk, v.levels[level], v.levels[l]); }
    }
  }
}

/** A compaction (db/db_impl.cc, db/version_set.cc): the loop that drops hidden
    versions and obsolete deletions, its output tables, the version that is
    installed, and what reads see before and after. */
module Compactions {
  import opened Keys
  import opened Versions
  import opened Inputs

  // ----- IsBaseLevelForKey -----

  predicate HoldsKey(f: FileMeta, k: UserKey) {
    f.smallest.user <= k <= f.largest.user
  }

  /** No file below level + 1 has `k` in its range. */
  ghost predicate BaseLevel(v: Version, level: nat, k: UserKey) {
    forall l, i :: level + 2 <= l < |v.levels| && 0 <= i < |v.levels[l]| ==> !HoldsKey(v.levels[l][i], k)
  }

  /** The part of Compaction that IsBaseLevelForKey works on. */
  class Compaction {
    const level: nat
    const version: Version
    var levelPtrs: seq<nat>

    constructor (level: nat, version: Version)
      requires |version.levels| == KNumLevels
      ensures this.level == level && this.version == version
      ensures forall k :: PassedOnly(k)
    {
      this.level := level;
      this.version := version;
      this.levelPtrs := seq(KNumLevels, i => 0);
    }

    /** The pointers have moved past files that end before `k`, and only those. */
    ghost predicate PassedOnly(k: UserKey)
      reads this
    {
      && |levelPtrs| == KNumLevels == |version.levels|
      && (forall l :: 0 <= l < KNumLevels ==> levelPtrs[l] <= |version.levels[l]|)
      && (forall l, i :: 0 <= l < KNumLevels && 0 <= i < levelPtrs[l] ==> version.levels[l][i].largest.user < k)
    }

    /** One level of IsBaseLevelForKey. */
    method AdvancePtr(l: nat, k: UserKey) returns (held: bool)
      requires PassedOnly(k) && l < KNumLevels
      requires Disjoint(version.levels[l]) && Sane(version.levels[l])
      modifies this`levelPtrs
      ensures PassedOnly(k)
      ensures held <==> exists i :: 0 <= i < |version.levels[l]| && HoldsKey(version.levels[l][i], k)
    {
      var files := version.levels[l];
      while levelPtrs[l] < |files|
        invariant PassedOnly(k)
        decreases |files| - levelPtrs[l]
      {
        var f := files[levelPtrs[l]];
        if k <= f.largest.user {
          if k >= f.smallest.user {
            return true;
          }
          assert forall i :: levelPtrs[l] < i < |files| ==> Precedes(f.largest, files[i].smallest);
          return false;
        }
        levelPtrs := levelPtrs[l := levelPtrs[l] + 1];
      }
      held := false;
    }

    /** Scans each deeper level from where the last call stopped; sound because
        the keys of a compaction come in ascending order. */
    method IsBaseLevelForKey(k: UserKey) returns (base: bool)
      requires PassedOnly(k)
      requires forall l :: level + 2 <= l < KNumLevels ==> Disjoint(version.levels[l]) && Sane(version.levels[l])
      modifies this`levelPtrs
      ensures PassedOnly(k)
      ensures base <==> BaseLevel(version, level, k)
    {
      var l := level + 2;
      while l < KNumLevels
        invariant PassedOnly(k)
        invariant forall m, i :: level + 2 <= m < l && m < KNumLevels && 0 <= i < |version.levels[m]| ==>
                    !HoldsKey(version.levels[m][i], k)
      {
        var held := AdvancePtr(l, k);
        if held {
          return false;
        }
        l := l + 1;
      }
      base := true;
    }
  }

  // ----- what the loop keeps -----

  /** Rule (A): a newer version of the key is visible to every reader. */
  ghost predicate Hidden(stream: seq<Entry>, i: nat, ss: nat)
    requires i < |stream|
  {
    exists j :: 0 <= j < i && stream[j].key.user == stream[i].key.user && stream[j].key.sequence <= ss
  }

  /** Rule (B): a deletion every reader sees, with nothing below it to hide. */
  ghost predicate Obsolete(v: Version, level: nat, e: Entry, ss: nat) {
    e.key.kind.Deletion? && e.key.sequence <= ss && BaseLevel(v, level, e.key.user)
  }

  ghost predicate Dropped(v: Version, level: nat, stream: seq<Entry>, i: nat, ss: nat)
    requires i < |stream|
  {
    Hidden(stream, i, ss) || Obsolete(v, level, stream[i], ss)
  }

  /** The entries among the first `n` that are not dropped. */
  ghost function Survivors(v: Version, level: nat, stream: seq<Entry>, n: nat, ss: nat): seq<Entry>
    requires n <= |stream|
  {
    if n == 0 then []
    else
      Survivors(v, level, stream, n - 1, ss) +
      if Dropped(v, level, stream, n - 1, ss) then [] else [stream[n - 1]]
  }

  lemma {:induction false} SurvivorsAre(v: Version, level: nat, stream: seq<Entry>, n: nat, ss: nat)
    requires n <= |stream| && Versioned(stream)
    ensures Versioned(Survivors(v, level, stream, n, ss))
    ensures forall e :: e in Survivors(v, level, stream, n, ss)
              <==> exists i :: 0 <= i < n && stream[i] == e && !Dropped(v, level, stream, i, ss)
  {
    if n > 0 {
      SurvivorsAre(v, level, stream, n - 1, ss);
      assert forall e :: e in Survivors(v, level, stream, n - 1, ss) ==> Precedes(e.key, stream[n - 1].key);
    }
  }

  /** The tables of a list of files, end to end. */
  function Concat(disk: Disk, files: seq<FileMeta>): seq<Entry> {
    if files == [] then []
    else
      var f := files[|files| - 1];
      Concat(disk, files[..|files| - 1]) + if f.number in disk then disk[f.number] else []
  }

  /** Metadata and table agree, leaving order aside. */
  predicate Describes(disk: Disk, f: FileMeta) {
    && f.number in disk && disk[f.number] != []
    && f.smallest == disk[f.number][0].key
    && f.largest == disk[f.number][|disk[f.number]| - 1].key
  }

  lemma {:induction false} ConcatFrame(disk: Disk, disk': Disk, files: seq<FileMeta>)
    requires forall i :: 0 <= i < |files| ==>
               files[i].number in disk && files[i].number in disk' && disk[files[i].number] == disk'[files[i].number]
    ensures Concat(disk, files) == Concat(disk', files)
  {
    if files != [] { ConcatFrame(disk, disk', files[..|files| - 1]); }
  }

  lemma {:induction false} InLevelSnoc(disk: Disk, init: seq<FileMeta>, f: FileMeta, e: Entry)
    ensures InLevel(disk, init + [f], e) <==> InLevel(disk, init, e) || InFile(disk, f, e)
  {
    var files := init + [f];
    if InFile(disk, f, e) { assert InFile(disk, files[|init|], e); }
    if InLevel(disk, init, e) {
      var i :| 0 <= i < |init| && InFile(disk, init[i], e);
      assert InFile(disk, files[i], e);
    }
  }

  lemma {:induction false} ConcatMembers(disk: Disk, files: seq<FileMeta>)
    requires forall i :: 0 <= i < |files| ==> files[i].number in disk
    ensures forall e :: InLevel(disk, files, e) <==> e in Concat(disk, files)
  {
    if files != [] {
      var init, f := files[..|files| - 1], files[|files| - 1];
      ConcatMembers(disk, init);
      assert files == init + [f];
      forall e ensures InLevel(disk, files, e) <==> e in Concat(disk, files) {
        InLevelSnoc(disk, init, f, e);
      }
    }
  }

  lemma {:induction false} VersionedParts(front: seq<Entry>, back: seq<Entry>)
    requires Versioned(front + back)
    ensures Versioned(front) && Versioned(back)
    ensures forall a, b :: a in front && b in back ==> Precedes(a.key, b.key)
  {
    var all := front + back;
    assert forall i :: 0 <= i < |front| ==> front[i] == all[i];
    assert forall i :: 0 <= i < |back| ==> back[i] == all[|front| + i];
  }

  /** Cutting a sorted stream anywhere gives sorted tables in disjoint order. */
  lemma {:induction false} ConcatStored(disk: Disk, files: seq<FileMeta>)
    requires Versioned(Concat(disk, files))
    requires forall i :: 0 <= i < |files| ==> Describes(disk, files[i])
    ensures AllStored(disk, files) && Disjoint(files)
  {
    if files != [] {
      var init, f := files[..|files| - 1], files[|files| - 1];
      var front, back := Concat(disk, init), disk[f.number];
      VersionedParts(front, back);
      ConcatStored(disk, init);
      assert Stored(disk, f);
      forall i | 0 <= i < |init| ensures Precedes(init[i].largest, f.smallest) {
        LastInConcat(disk, init, i);
      }
      StoredSnoc(disk, init, f);
      assert files == init + [f];
    }
  }

  lemma {:induction false} LastInConcat(disk: Disk, files: seq<FileMeta>, i: nat)
    requires forall j :: 0 <= j < |files| ==> Describes(disk, files[j])
    requires i < |files| && Describes(disk, files[i])
    ensures var es := disk[files[i].number]; es[|es| - 1] in Concat(disk, files)
  {
    var es := disk[files[i].number];
    ConcatMembers(disk, files);
    assert InFile(disk, files[i], es[|es| - 1]);
    assert InLevel(disk, files, es[|es| - 1]);
  }

  lemma {:induction false} StoredSnoc(disk: Disk, init: seq<FileMeta>, f: FileMeta)
    requires AllStored(disk, init) && Disjoint(init) && Stored(disk, f)
    requires forall i :: 0 <= i < |init| ==> Precedes(init[i].largest, f.smallest)
    ensures AllStored(disk, init + [f]) && Disjoint(init + [f])
  {
  }

  // ----- DoCompactionWork -----

  /** Where outputs are cut: ShouldStopBefore by position in the stream, and the
      byte size of a table against MaxOutputFileSize. */
  datatype Policy = Policy(stopBefore: nat -> bool, sizeOf: seq<Entry> -> nat, maxOutput: nat)

  ghost predicate Extends(disk: Disk, disk': Disk) {
    forall n :: n in disk ==> n in disk' && disk'[n] == disk[n]
  }

  ghost predicate NumbersBelow(disk: Disk, next: nat) {
    forall n :: n in disk ==> n < next
  }

  /** The output side of CompactionState: finished tables on disk, and the one
      being built (`builder` is empty when none is open). */
  datatype Outputs = Outputs(outs: seq<FileMeta>, disk: Disk, next: nat, number: nat, builder: seq<Entry>)

  /** `o` holds `es` in order, in new tables and the open builder. */
  ghost predicate Wrote(disk0: Disk, next0: nat, o: Outputs, es: seq<Entry>) {
    && Extends(disk0, o.disk)
    && Concat(o.disk, o.outs) + o.builder == es
    && (forall i :: 0 <= i < |o.outs| ==> Describes(o.disk, o.outs[i]) && o.outs[i].number >= next0)
    && DistinctNumbers(o.outs)
    && NumbersBelow(o.disk, o.next) && next0 <= o.next
    && (o.builder != [] ==> o.number !in o.disk && next0 <= o.number < o.next)
  }

  /** FinishCompactionOutputFile: close the open output. */
  method FinishOutput(ghost disk0: Disk, ghost next0: nat, ghost es: seq<Entry>, o: Outputs,
                      policy: Policy) returns (o': Outputs)
    requires Wrote(disk0, next0, o, es) && o.builder != []
    ensures Wrote(disk0, next0, o', es) && o'.builder == []
  {
    var f := FileMeta(o.number, policy.sizeOf(o.builder), o.builder[0].key, o.builder[|o.builder| - 1].key);
    NewTable(o.disk, o.outs, f, o.builder);
    var outs', disk' := o.outs + [f], o.disk[o.number := o.builder];
    assert Extends(disk0, disk') && NumbersBelow(disk', o.next);
    assert Describes(disk', f);
    assert forall i :: 0 <= i < |outs'| ==> Describes(disk', outs'[i]) && outs'[i].number >= next0;
    assert DistinctNumbers(outs');
    assert Concat(disk', outs') + [] == es;
    o' := Outputs(outs', disk', o.next, o.number, []);
  }

  /** Writing a new table adds it at the end and leaves the others alone. */
  lemma {:induction false} NewTable(disk: Disk, outs: seq<FileMeta>, f: FileMeta, es: seq<Entry>)
    requires f.number !in disk && forall i :: 0 <= i < |outs| ==> Describes(disk, outs[i])
    ensures Concat(disk[f.number := es], outs + [f]) == Concat(disk, outs) + es
    ensures forall i :: 0 <= i < |outs| ==> Describes(disk[f.number := es], outs[i]) && outs[i].number != f.number
  {
    var disk' := disk[f.number := es];
    assert (outs + [f])[..|outs|] == outs;
    forall i | 0 <= i < |outs|
      ensures outs[i].number in disk && outs[i].number in disk' && disk[outs[i].number] == disk'[outs[i].number]
      ensures Describes(disk', outs[i])
    {
      assert Describes(disk, outs[i]);
    }
    ConcatFrame(disk, disk', outs);
  }

  /** Open an output if none is, append the entry, close the output when full. */
  method AddToOutput(ghost disk0: Disk, ghost next0: nat, ghost es: seq<Entry>, o: Outputs, e: Entry,
                     policy: Policy) returns (o': Outputs)
    requires Wrote(disk0, next0, o, es)
    ensures Wrote(disk0, next0, o', es + [e])
  {
    o' := o;
    if o.builder == [] {
      o' := o'.(number := o'.next, next := o'.next + 1);
    }
    o' := o'.(builder := o'.builder + [e]);
    assert Concat(o'.disk, o'.outs) + o'.builder == es + [e];
    if policy.sizeOf(o'.builder) >= policy.maxOutput {
      o' := FinishOutput(disk0, next0, es + [e], o', policy);
    }
  }

  /** The user key being processed and the last sequence number seen for it. */
  datatype Progress = Progress(hasCurrent: bool, current: UserKey, lastSequence: nat)

  /** The state of the loop before entry `i`. */
  ghost predicate Tracks(p: Progress, stream: seq<Entry>, i: nat)
    requires i <= |stream|
  {
    if i == 0 then !p.hasCurrent
    else p == Progress(true, stream[i - 1].key.user, stream[i - 1].key.sequence)
  }

  ghost predicate ReadyFrom(c: Compaction, stream: seq<Entry>, i: nat)
    requires i <= |stream|
    reads c
  {
    forall k :: (i > 0 ==> k >= stream[i - 1].key.user) ==> c.PassedOnly(k)
  }

  ghost predicate DeepLevelsSorted(v: Version, level: nat) {
    && |v.levels| == KNumLevels
    && forall l :: level + 2 <= l < KNumLevels ==> Disjoint(v.levels[l]) && Sane(v.levels[l])
  }

  /** The drop decision for entry `i`. */
  method Decide(c: Compaction, ghost stream: seq<Entry>, ghost i: nat, e: Entry, p: Progress,
                ss: nat) returns (drop: bool, p': Progress)
    requires Versioned(stream) && i < |stream| && stream[i] == e
    requires DeepLevelsSorted(c.version, c.level)
    requires Tracks(p, stream, i) && ReadyFrom(c, stream, i)
    requires ss < KMaxSequenceNumber
    modifies c
    ensures drop <==> Dropped(c.version, c.level, stream, i, ss)
    ensures Tracks(p', stream, i + 1) && ReadyFrom(c, stream, i + 1)
  {
    p' := p;
    drop := false;
    if !p'.hasCurrent || e.key.user != p'.current {
      p' := Progress(true, e.key.user, KMaxSequenceNumber);
    }
    HiddenByLast(stream, i, ss);
    assert i > 0 ==> Precedes(stream[i - 1].key, stream[i].key);
    if p'.lastSequence <= ss {
      drop := true;
    } else if e.key.kind.Deletion? && e.key.sequence <= ss {
      drop := c.IsBaseLevelForKey(e.key.user);
    }
    p' := p'.(lastSequence := e.key.sequence);
  }

  /** DBImpl::DoCompactionWork: one pass over the merged inputs. It writes exactly
      the entries that neither rule drops, in order, cut into tables anywhere. */
  method DoCompactionWork(c: Compaction, stream: seq<Entry>, ss: nat, disk0: Disk, next0: nat,
                          policy: Policy) returns (o: Outputs)
    requires DeepLevelsSorted(c.version, c.level)
    requires ReadyFrom(c, stream, 0)
    requires Versioned(stream)
    requires ss < KMaxSequenceNumber
    requires NumbersBelow(disk0, next0)
    modifies c
    ensures Wrote(disk0, next0, o, Survivors(c.version, c.level, stream, |stream|, ss)) && o.builder == []
  {
    o := Outputs([], disk0, next0, 0, []);
    var p := Progress(false, 0.0, KMaxSequenceNumber);
    for i := 0 to |stream|
      invariant Wrote(disk0, next0, o, Survivors(c.version, c.level, stream, i, ss))
      invariant Tracks(p, stream, i) && ReadyFrom(c, stream, i)
    {
      if policy.stopBefore(i) && o.builder != [] {
        o := FinishOutput(disk0, next0, Survivors(c.version, c.level, stream, i, ss), o, policy);
      }
      var drop;
      drop, p := Decide(c, stream, i, stream[i], p, ss);
      if !drop {
        o := AddToOutput(disk0, next0, Survivors(c.version, c.level, stream, i, ss), o, stream[i], policy);
      }
    }
    if o.builder != [] {
      o := FinishOutput(disk0, next0, Survivors(c.version, c.level, stream, |stream|, ss), o, policy);
    }
  }

  /** Remembering the last sequence number seen for a key is enough for rule (A). */
  lemma {:induction false} HiddenByLast(stream: seq<Entry>, i: nat, ss: nat)
    requires Versioned(stream) && i < |stream|
    ensures Hidden(stream, i, ss) <==>
            i > 0 && stream[i - 1].key.user == stream[i].key.user && stream[i - 1].key.sequence <= ss
  {
    if i > 0 {
      forall j | 0 <= j < i && stream[j].key.user == stream[i].key.user
        ensures stream[i - 1].key.user == stream[i].key.user && stream[i - 1].key.sequence <= stream[j].key.sequence
      {
        assert j == i - 1 || Precedes(stream[j].key, stream[i - 1].key);
        assert Precedes(stream[i - 1].key, stream[i].key);
      }
    }
  }
}

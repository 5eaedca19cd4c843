/** The argument that a compaction changes no read, on sets of entries: levels are
    sets, a compaction takes inputs from two of them and puts what it keeps into
    the lower one. */
module LevelSets {
  import opened Keys
  import opened Versions

  type Levels = seq<iset<Entry>>

  ghost function All(ls: Levels): iset<Entry> {
    iset e | InSome(ls, e)
  }

  ghost predicate InSome(ls: Levels, e: Entry) {
    exists l :: 0 <= l < |ls| && e in ls[l]
  }

  lemma {:induction false} AllUpdate(ls: Levels, level: nat, extra: iset<Entry>)
    requires level < |ls|
    ensures All(ls[level := ls[level] + extra]) == All(ls) + extra
  {
    var ls' := ls[level := ls[level] + extra];
    forall e ensures InSome(ls', e) <==> InSome(ls, e) || e in extra {
      if e in extra { assert e in ls'[level]; }
      if InSome(ls, e) {
        var l :| 0 <= l < |ls| && e in ls[l];
        assert e in ls'[l];
      }
    }
  }

  ghost predicate NewerSet(upper: iset<Entry>, lower: iset<Entry>) {
    forall a, b :: a in upper && b in lower && a.key.user == b.key.user ==> a.key.sequence > b.key.sequence
  }

  /** Shallower data is newer. */
  ghost predicate Layered(ls: Levels) {
    forall l, m :: 0 <= l < m < |ls| ==> NewerSet(ls[l], ls[m])
  }

  /** The parts of one compaction at `level`: left behind, taken, kept. */
  datatype Parts = Parts(rest0: iset<Entry>, rest1: iset<Entry>, in0: iset<Entry>, in1: iset<Entry>,
                         kept: iset<Entry>) {
    ghost function Ins(): iset<Entry> { in0 + in1 }
    ghost function Rests(): iset<Entry> { rest0 + rest1 }
  }

  ghost predicate Splits(old_: Levels, level: nat, p: Parts) {
    && level + 1 < |old_|
    && old_[level] == p.rest0 + p.in0
    && old_[level + 1] == p.rest1 + p.in1
    && p.Rests() !! p.Ins()
    && p.kept <= p.Ins()
  }

  ghost function Next(old_: Levels, level: nat, p: Parts): Levels
    requires level + 1 < |old_|
  {
    old_[level := p.rest0][level + 1 := p.rest1 + p.kept]
  }

  /** `e` is a deletion that every reader from `ss` on sees, no deeper level has its
      key, and nothing older of its key was kept. */
  ghost predicate ObsoleteIn(old_: Levels, level: nat, p: Parts, ss: nat, e: Entry) {
    && e.key.kind.Deletion? && e.key.sequence <= ss
    && (forall l, x :: level + 2 <= l < |old_| && x in old_[l] ==> x.key.user != e.key.user)
    && (forall x :: x in p.kept && x.key.user == e.key.user ==> x.key.sequence > e.key.sequence)
  }

  ghost predicate HiddenIn(p: Parts, ss: nat, e: Entry) {
    exists h :: h in p.Ins() && h.key.user == e.key.user && e.key.sequence < h.key.sequence <= ss
  }

  /** Only hidden versions and obsolete deletions are left out. */
  ghost predicate SoundDrop(old_: Levels, level: nat, p: Parts, ss: nat) {
    forall e :: e in p.Ins() && e !in p.kept ==> HiddenIn(p, ss, e) || ObsoleteIn(old_, level, p, ss, e)
  }

  // ----- layering -----

  /** The output is layered exactly when what stays behind at the upper level is
      newer than what moved below it. */
  lemma {:induction false} NextIsLayered(old_: Levels, level: nat, p: Parts)
    requires Splits(old_, level, p) && Layered(old_)
    ensures Layered(Next(old_, level, p)) <==> NewerSet(p.rest0, p.kept)
  {
    var new_ := Next(old_, level, p);
    assert new_[level] == p.rest0 && new_[level + 1] == p.rest1 + p.kept;
    if Layered(new_) {
      assert NewerSet(new_[level], new_[level + 1]);
    }
    if NewerSet(p.rest0, p.kept) {
      forall l, m | 0 <= l < m < |new_| ensures NewerSet(new_[l], new_[m]) {
        assert NewerSet(old_[l], old_[m]);
        assert l < level ==> NewerSet(old_[l], old_[level]) && NewerSet(old_[l], old_[level + 1]);
        assert m > level + 1 ==> NewerSet(old_[level], old_[m]) && NewerSet(old_[level + 1], old_[m]);
        assert NewerSet(old_[level], old_[level + 1]);
      }
    }
  }

  // ----- contents -----

  /** No two entries share user key and sequence number. */
  ghost predicate Unique(all: iset<Entry>) {
    forall a, b :: a in all && b in all && a.key.user == b.key.user && a.key.sequence == b.key.sequence ==> a == b
  }

  /** Nothing is added, and only inputs can disappear. */
  lemma {:induction false} NextContents(old_: Levels, level: nat, p: Parts, e: Entry)
    requires Splits(old_, level, p) && Layered(old_)
    ensures e in All(Next(old_, level, p)) <==> e in All(old_) && (e in p.Ins() ==> e in p.kept)
    ensures e in p.Ins() || e in p.Rests() ==> e in All(old_)
  {
    var new_ := Next(old_, level, p);
    assert new_[level] == p.rest0 && new_[level + 1] == p.rest1 + p.kept;
    assert e in p.Ins() || e in p.Rests() ==> e in old_[level] || e in old_[level + 1];
    if e in All(new_) {
      var l :| 0 <= l < |new_| && e in new_[l];
      if l != level && l != level + 1 {
        assert e in old_[l];
        assert l < level ==> NewerSet(old_[l], old_[level]) && NewerSet(old_[l], old_[level + 1]);
        assert l > level + 1 ==> NewerSet(old_[level], old_[l]) && NewerSet(old_[level + 1], old_[l]);
      }
    }
    if e in All(old_) && (e in p.Ins() ==> e in p.kept) {
      var l :| 0 <= l < |old_| && e in old_[l];
      assert e in new_[if e in p.Ins() then level + 1 else l];
    }
  }

  /** Among visible versions of a key there is a newest one. */
  lemma {:induction false} NewestExists(all: iset<Entry>, k: UserKey, s: nat)
    requires Unique(all)
    ensures NoneVisible(all, k, s) || exists e :: IsNewest(all, k, s, e)
  {
    if e :| e in all && e.key.user == k && e.key.sequence == s {
      assert IsNewest(all, k, s, e);
    } else if s > 0 {
      NewestExists(all, k, s - 1);
      if !NoneVisible(all, k, s - 1) {
        var e :| IsNewest(all, k, s - 1, e);
        assert IsNewest(all, k, s, e);
      }
    }
  }

  /** An entry older than an input of its key was not shallower than the inputs. */
  lemma {:induction false} OlderIsDeeper(old_: Levels, level: nat, p: Parts, e: Entry, x: Entry)
    requires Splits(old_, level, p) && Layered(old_)
    requires e in p.Ins() && x in All(old_) && e.key.user == x.key.user && x.key.sequence < e.key.sequence
    ensures x in p.Ins() || x in p.Rests() || exists l :: level + 2 <= l < |old_| && x in old_[l]
  {
  }

  // ----- reads -----

  /** Dropping `d` brings the value `x` back: `x` stays behind, is the newest of its
      key below `d`, and no other version that all readers see covers it. */
  ghost predicate Exposes(old_: Levels, p: Parts, ss: nat, d: Entry, x: Entry) {
    && d in p.Ins() && d !in p.kept && d.key.kind.Deletion? && d.key.sequence <= ss
    && x in p.Rests() && x.key.kind.Value?
    && x.key.user == d.key.user && x.key.sequence < d.key.sequence
    && (forall y :: y in All(old_) && y.key.user == d.key.user ==> !(d.key.sequence < y.key.sequence <= ss))
    && (forall y :: y in p.Rests() && y.key.user == d.key.user ==> !(x.key.sequence < y.key.sequence < d.key.sequence))
  }

  /** Every read at a snapshot from `ss` on answers alike before and after. */
  ghost predicate SameReads(a: iset<Entry>, b: iset<Entry>, ss: nat) {
    forall k, s, r {:trigger Answers(a, k, s, r)} {:trigger Answers(b, k, s, r)} ::
      s >= ss ==> (Answers(a, k, s, r) <==> Answers(b, k, s, r))
  }

  /** A visible version left after the newest one was dropped: it stayed behind. */
  lemma {:induction false} LeftoverIsRest(old_: Levels, level: nat, p: Parts, ss: nat, k: UserKey, s: nat, e: Entry,
                                          x: Entry)
    requires Splits(old_, level, p) && Layered(old_) && SoundDrop(old_, level, p, ss) && s >= ss
    requires IsNewest(All(old_), k, s, e) && e in p.Ins() && e !in p.kept
    requires x in All(Next(old_, level, p)) && Visible(x, k, s)
    ensures ObsoleteIn(old_, level, p, ss, e) && x in p.Rests() && x.key.sequence < e.key.sequence
  {
    NextContents(old_, level, p, e);
    NextContents(old_, level, p, x);
    forall h | h in p.Ins() ensures h in All(old_) { NextContents(old_, level, p, h); }
    assert !HiddenIn(p, ss, e);
    OlderIsDeeper(old_, level, p, e, x);
  }

  /** If nothing is exposed, what then becomes newest is a deletion as well. */
  lemma {:induction false} NextNewestIsDeletion(old_: Levels, level: nat, p: Parts, ss: nat, k: UserKey, s: nat,
                                                e: Entry, x: Entry)
    requires Splits(old_, level, p) && Layered(old_) && SoundDrop(old_, level, p, ss) && s >= ss
    requires IsNewest(All(old_), k, s, e) && e in p.Ins() && e !in p.kept
    requires IsNewest(All(Next(old_, level, p)), k, s, x)
    requires !Exposes(old_, p, ss, e, x)
    ensures x.key.kind.Deletion?
  {
    LeftoverIsRest(old_, level, p, ss, k, s, e, x);
    forall y | y in p.Rests() && y.key.user == k ensures !(x.key.sequence < y.key.sequence < e.key.sequence) {
      NextContents(old_, level, p, y);
    }
  }

  /** If no value is exposed, an answer before is an answer after. */
  lemma {:induction false} AnswerKept(old_: Levels, level: nat, p: Parts, ss: nat, k: UserKey, s: nat, r: Answer)
    requires Splits(old_, level, p) && Layered(old_) && SoundDrop(old_, level, p, ss) && s >= ss
    requires Unique(All(old_))
    requires forall d, x :: !Exposes(old_, p, ss, d, x)
    requires Answers(All(old_), k, s, r)
    ensures Answers(All(Next(old_, level, p)), k, s, r)
  {
    var new_ := Next(old_, level, p);
    if NoneVisible(All(old_), k, s) {
      forall x | x in All(new_) ensures x in All(old_) { NextContents(old_, level, p, x); }
    } else {
      var e :| IsNewest(All(old_), k, s, e) && r == AnswerOf(e);
      NextContents(old_, level, p, e);
      if e in All(new_) {
        forall x | x in All(new_) ensures x in All(old_) { NextContents(old_, level, p, x); }
        assert IsNewest(All(new_), k, s, e);
      } else {
        EmptiedByDeletion(old_, level, p, ss, k, s, e);
        UniqueAfter(old_, level, p);
        NewestExists(All(new_), k, s);
        if !NoneVisible(All(new_), k, s) {
          var x :| IsNewest(All(new_), k, s, x);
          NextNewestIsDeletion(old_, level, p, ss, k, s, e, x);
        }
      }
    }
  }

  /** What was dropped as the newest visible version was a deletion. */
  lemma {:induction false} EmptiedByDeletion(old_: Levels, level: nat, p: Parts, ss: nat, k: UserKey, s: nat, e: Entry)
    requires Splits(old_, level, p) && Layered(old_) && SoundDrop(old_, level, p, ss) && s >= ss
    requires IsNewest(All(old_), k, s, e) && e in p.Ins() && e !in p.kept
    ensures e.key.kind.Deletion?
  {
    forall h | h in p.Ins() ensures h in All(old_) { NextContents(old_, level, p, h); }
    assert !HiddenIn(p, ss, e);
  }

  /** A compaction keeps every read from `ss` on exactly when it exposes nothing. */
  lemma {:induction false} ReadsKeptExactly(old_: Levels, level: nat, p: Parts, ss: nat)
    requires Splits(old_, level, p) && Layered(old_) && SoundDrop(old_, level, p, ss)
    requires Unique(All(old_))
    ensures SameReads(All(old_), All(Next(old_, level, p)), ss) <==> forall d, x :: !Exposes(old_, p, ss, d, x)
  {
    var new_ := Next(old_, level, p);
    if forall d, x :: !Exposes(old_, p, ss, d, x) {
      UniqueAfter(old_, level, p);
      forall k, s, r | s >= ss ensures Answers(All(old_), k, s, r) <==> Answers(All(new_), k, s, r) {
        if Answers(All(old_), k, s, r) { AnswerKept(old_, level, p, ss, k, s, r); }
        if Answers(All(new_), k, s, r) {
          var r0 := AnswerExists(All(old_), k, s);
          AnswerKept(old_, level, p, ss, k, s, r0);
          AnswersUnique(All(new_), k, s, r, r0);
        }
      }
    } else {
      var d, x :| Exposes(old_, p, ss, d, x);
      ExposureIsSeen(old_, level, p, ss, d, x);
    }
  }

  lemma {:induction false} UniqueAfter(old_: Levels, level: nat, p: Parts)
    requires Splits(old_, level, p) && Layered(old_) && Unique(All(old_))
    ensures Unique(All(Next(old_, level, p)))
  {
    forall e | e in All(Next(old_, level, p)) ensures e in All(old_) { NextContents(old_, level, p, e); }
  }

  lemma {:induction false} AnswerExists(all: iset<Entry>, k: UserKey, s: nat) returns (r: Answer)
    requires Unique(all)
    ensures Answers(all, k, s, r)
  {
    NewestExists(all, k, s);
    if NoneVisible(all, k, s) {
      r := NotFound;
    } else {
      var e :| IsNewest(all, k, s, e);
      r := AnswerOf(e);
    }
  }

  /** An exposed value is read at `ss` afterwards, where there was a deletion. */
  lemma {:induction false} ExposureIsSeen(old_: Levels, level: nat, p: Parts, ss: nat, d: Entry, x: Entry)
    requires Splits(old_, level, p) && Layered(old_) && SoundDrop(old_, level, p, ss) && Unique(All(old_))
    requires Exposes(old_, p, ss, d, x)
    ensures !SameReads(All(old_), All(Next(old_, level, p)), ss)
  {
    var k, new_ := d.key.user, Next(old_, level, p);
    NextContents(old_, level, p, d);
    NextContents(old_, level, p, x);
    assert IsNewest(All(old_), k, ss, d);
    forall y | y in All(new_) && Visible(y, k, ss) && y != x ensures y.key.sequence < x.key.sequence {
      NextContents(old_, level, p, y);
      LeftoverIsRest(old_, level, p, ss, k, ss, d, y);
    }
    assert IsNewest(All(new_), k, ss, x);
    assert Answers(All(old_), k, ss, NotFound) && Answers(All(new_), k, ss, Found(x.value));
    if Answers(All(old_), k, ss, Found(x.value)) {
      AnswersUnique(All(old_), k, ss, NotFound, Found(x.value));
    }
  }

  /** If nothing left behind is older than an input of its key, nothing is exposed. */
  lemma {:induction false} NewerRestsExposeNothing(old_: Levels, p: Parts, ss: nat)
    requires NewerSet(p.Rests(), p.Ins())
    ensures forall d, x :: !Exposes(old_, p, ss, d, x)
  {
  }
}

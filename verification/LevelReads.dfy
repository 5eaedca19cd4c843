/** What Version::Get reads when it goes through the levels, before and after a compaction,
    on sets of entries. The first level with a visible version decides, so that a version
    left at the upper level can stand in front of a newer one that moved below it. */
module LevelReads {
  import opened Keys
  import opened Versions
  import opened LevelSets

  // ----- one reading -----

  lemma {:induction false} FirstAtUnique(ls: Levels, k: UserKey, s: nat, l: nat, m: nat)
    requires FirstAt(ls, k, s, l) && FirstAt(ls, k, s, m)
    ensures l == m
  {
    hide NoneVisible;
  }

  lemma {:induction false} DecidesUnique(all: iset<Entry>, k: UserKey, s: nat, r: Answer, r': Answer)
    requires Decides(all, k, s, r) && Decides(all, k, s, r')
    ensures r == r'
  {
    var e :| IsNewest(all, k, s, e) && r == AnswerOf(e);
    var e' :| IsNewest(all, k, s, e') && r' == AnswerOf(e');
  }

  lemma {:induction false} FirstUnique(ls: Levels, k: UserKey, s: nat, r: Answer, r': Answer)
    requires FirstAnswers(ls, k, s, r) && FirstAnswers(ls, k, s, r')
    ensures r == r'
  {
    hide NoneVisible, Decides;
    var l: nat :| FirstAt(ls, k, s, l) && if l == |ls| then r.NotFound? else Decides(ls[l], k, s, r);
    var m: nat :| FirstAt(ls, k, s, m) && if m == |ls| then r'.NotFound? else Decides(ls[m], k, s, r');
    FirstAtUnique(ls, k, s, l, m);
    if l < |ls| { DecidesUnique(ls[l], k, s, r, r'); }
  }

  lemma {:induction false} FirstFold(ls: Levels, k: UserKey, s: nat, l: nat, e: Entry)
    requires l < |ls| && IsNewest(ls[l], k, s, e) && forall m :: 0 <= m < l ==> NoneVisible(ls[m], k, s)
    ensures FirstAnswers(ls, k, s, AnswerOf(e))
  {
    assert FirstAt(ls, k, s, l) && Decides(ls[l], k, s, AnswerOf(e));
  }

  lemma {:induction false} FirstNone(ls: Levels, k: UserKey, s: nat)
    requires forall m :: 0 <= m < |ls| ==> NoneVisible(ls[m], k, s)
    ensures FirstAnswers(ls, k, s, NotFound)
  {
    assert FirstAt(ls, k, s, |ls|);
  }

  /** Above the newest visible version nothing is visible. */
  lemma {:induction false} AboveNone(ls: Levels, k: UserKey, s: nat, l: nat, e: Entry, m: nat)
    requires Layered(ls) && m < l < |ls| && e in ls[l] && IsNewest(All(ls), k, s, e)
    ensures NoneVisible(ls[m], k, s)
  {
    assert NewerSet(ls[m], ls[l]);
    forall x | x in ls[m] ensures x in All(ls) { assert InSome(ls, x); }
  }

  lemma {:induction false} LevelOf(ls: Levels, e: Entry) returns (l: nat)
    requires e in All(ls)
    ensures l < |ls| && e in ls[l]
  {
    l :| 0 <= l < |ls| && e in ls[l];
  }

  lemma {:induction false} NewestHere(ls: Levels, k: UserKey, s: nat, l: nat, e: Entry)
    requires l < |ls| && e in ls[l] && IsNewest(All(ls), k, s, e)
    ensures IsNewest(ls[l], k, s, e)
  {
    forall x | x in ls[l] ensures x in All(ls) { assert InSome(ls, x); }
  }

  /** Where shallower data is newer, the newest version of all is what is read. */
  lemma {:induction false} NewestIsRead(ls: Levels, k: UserKey, s: nat, e: Entry)
    requires Layered(ls) && IsNewest(All(ls), k, s, e)
    ensures FirstAnswers(ls, k, s, AnswerOf(e))
  {
    hide NoneVisible, IsNewest, Layered;
    NewestIn(ls, k, s, e);
    var l := LevelOf(ls, e);
    NewestHere(ls, k, s, l, e);
    forall m | 0 <= m < l ensures NoneVisible(ls[m], k, s) { AboveNone(ls, k, s, l, e, m); }
    FirstFold(ls, k, s, l, e);
  }

  lemma {:induction false} NewestIn(ls: Levels, k: UserKey, s: nat, e: Entry)
    requires IsNewest(All(ls), k, s, e)
    ensures e in All(ls)
  {
  }

  lemma {:induction false} NothingIsRead(ls: Levels, k: UserKey, s: nat)
    requires NoneVisible(All(ls), k, s)
    ensures FirstAnswers(ls, k, s, NotFound)
  {
    forall m | 0 <= m < |ls| ensures NoneVisible(ls[m], k, s) {
      forall x | x in ls[m] ensures x in All(ls) { assert InSome(ls, x); }
    }
    FirstNone(ls, k, s);
  }

  /** Level by level or over everything: the same answers. */
  lemma {:induction false} FirstIsNewest(ls: Levels, k: UserKey, s: nat, r: Answer)
    requires Layered(ls) && Unique(All(ls))
    ensures FirstAnswers(ls, k, s, r) <==> Answers(All(ls), k, s, r)
  {
    hide FirstAnswers, NoneVisible, IsNewest, Layered, Unique;
    NewestExists(All(ls), k, s);
    if NoneVisible(All(ls), k, s) {
      NothingIsRead(ls, k, s);
      NothingAnswers(All(ls), k, s);
      if FirstAnswers(ls, k, s, r) { FirstUnique(ls, k, s, r, NotFound); }
      if Answers(All(ls), k, s, r) { AnswersUnique(All(ls), k, s, r, NotFound); }
    } else {
      var e :| IsNewest(All(ls), k, s, e);
      NewestIsRead(ls, k, s, e);
      assert Answers(All(ls), k, s, AnswerOf(e));
      if FirstAnswers(ls, k, s, r) { FirstUnique(ls, k, s, r, AnswerOf(e)); }
      if Answers(All(ls), k, s, r) { AnswersUnique(All(ls), k, s, r, AnswerOf(e)); }
    }
  }

  lemma {:induction false} NothingAnswers(all: iset<Entry>, k: UserKey, s: nat)
    requires NoneVisible(all, k, s)
    ensures Answers(all, k, s, NotFound)
  {
  }

  // ----- after a compaction -----

  /** `e` moves down and `x`, an older version, stays at the upper level in front of it:
      the next older one there, with another answer; and `e` is the newest version that
      the oldest reader, or the first reader to see `e`, may see. */
  ghost predicate OvertakesIn(old_: Levels, p: Parts, ss: nat, e: Entry, x: Entry) {
    && e in p.in0 && x in p.rest0 && x.key.user == e.key.user && x.key.sequence < e.key.sequence
    && (forall y :: y in All(old_) && y.key.user == e.key.user ==> !(e.key.sequence < y.key.sequence <= ss))
    && (forall y :: y in p.rest0 && y.key.user == e.key.user ==> !(x.key.sequence < y.key.sequence < e.key.sequence))
    && AnswerOf(e) != AnswerOf(x)
  }

  ghost predicate SameFirst(a: Levels, b: Levels, ss: nat) {
    forall k, s, r {:trigger FirstAnswers(a, k, s, r)} {:trigger FirstAnswers(b, k, s, r)} ::
      s >= ss ==> (FirstAnswers(a, k, s, r) <==> FirstAnswers(b, k, s, r))
  }

  /** The levels after the compaction. */
  lemma {:induction false} NextLevels(old_: Levels, level: nat, p: Parts)
    requires Splits(old_, level, p)
    ensures var new_ := Next(old_, level, p);
            && |new_| == |old_| && new_[level] == p.rest0 && new_[level + 1] == p.rest1 + p.kept
            && forall m :: 0 <= m < |old_| && m != level && m != level + 1 ==> new_[m] == old_[m]
  {
  }

  /** Parts of a set with nothing visible have nothing visible. */
  lemma {:induction false} PartNone(a: iset<Entry>, b: iset<Entry>, k: UserKey, s: nat)
    requires a <= b && NoneVisible(b, k, s)
    ensures NoneVisible(a, k, s)
  {
  }

  lemma {:induction false} PartNewest(a: iset<Entry>, b: iset<Entry>, k: UserKey, s: nat, e: Entry)
    requires a <= b && e in a && IsNewest(b, k, s, e)
    ensures IsNewest(a, k, s, e)
  {
  }

  lemma {:induction false} PartsIn(old_: Levels, level: nat, p: Parts)
    requires Splits(old_, level, p)
    ensures p.rest0 <= old_[level] && p.in0 <= old_[level] && p.rest1 <= old_[level + 1] && p.in1 <= old_[level + 1]
    ensures p.kept <= old_[level] + old_[level + 1] && p.kept <= p.in0 + p.in1
    ensures forall m :: 0 <= m < |old_| ==> old_[m] <= All(old_)
  {
    forall m, x | 0 <= m < |old_| && x in old_[m] ensures x in All(old_) { assert InSome(old_, x); }
  }

  /** A version that was not an input is read as before. */
  lemma {:induction false} OutsideRead(old_: Levels, level: nat, p: Parts, k: UserKey, s: nat, e: Entry)
    requires Splits(old_, level, p) && Layered(old_) && IsNewest(All(old_), k, s, e) && e !in p.Ins()
    ensures FirstAnswers(Next(old_, level, p), k, s, AnswerOf(e))
  {
    var new_ := Next(old_, level, p);
    NextLevels(old_, level, p);
    PartsIn(old_, level, p);
    var l := LevelOf(old_, e);
    hide NoneVisible, IsNewest, Layered, Next;
    NewestHere(old_, k, s, l, e);
    forall m | 0 <= m < l ensures NoneVisible(new_[m], k, s) {
      AboveNone(old_, k, s, l, e, m);
      if m == level {
        PartNone(p.rest0, old_[m], k, s);
      } else if m == level + 1 {
        AboveNone(old_, k, s, l, e, level);
        EitherNone(old_[level], old_[level + 1], p.rest1 + p.kept, k, s);
      }
    }
    StaysNewest(old_, level, p, k, s, l, e);
    FirstFold(new_, k, s, l, e);
  }

  lemma {:induction false} EitherNone(a: iset<Entry>, b: iset<Entry>, c: iset<Entry>, k: UserKey, s: nat)
    requires NoneVisible(a, k, s) && NoneVisible(b, k, s) && c <= a + b
    ensures NoneVisible(c, k, s)
  {
  }

  lemma {:induction false} StaysNewest(old_: Levels, level: nat, p: Parts, k: UserKey, s: nat, l: nat, e: Entry)
    requires Splits(old_, level, p) && l < |old_| && e in old_[l] && IsNewest(All(old_), k, s, e) && e !in p.Ins()
    ensures l < |Next(old_, level, p)| && IsNewest(Next(old_, level, p)[l], k, s, e)
  {
    NextLevels(old_, level, p);
    PartsIn(old_, level, p);
    var new_ := Next(old_, level, p);
    hide Next;
    assert e in new_[l];
    forall x | x in new_[l] ensures x in All(old_) {
      assert x in old_[level] || x in old_[level + 1] || x in old_[l];
    }
  }

  lemma {:induction false} InputLevel(old_: Levels, level: nat, p: Parts, e: Entry)
    requires Splits(old_, level, p) && e in p.Ins()
    ensures level + 1 < |old_| && (if e in p.in0 then e in old_[level] else e in old_[level + 1])
  {
  }

  /** Above the two levels nothing visible is in front of an input. */
  lemma {:induction false} ClearAbove(old_: Levels, level: nat, p: Parts, k: UserKey, s: nat, e: Entry, m: nat)
    requires Splits(old_, level, p) && Layered(old_) && IsNewest(All(old_), k, s, e) && e in p.Ins() && m < level
    ensures NoneVisible(Next(old_, level, p)[m], k, s)
  {
    hide *;
    NextLevels(old_, level, p);
    InputLevel(old_, level, p, e);
    if e in p.in0 { AboveNone(old_, k, s, level, e, m); } else { AboveNone(old_, k, s, level + 1, e, m); }
  }

  /** A version that moved down is read if nothing of its key is visible above it. */
  lemma {:induction false} MovedRead(old_: Levels, level: nat, p: Parts, k: UserKey, s: nat, e: Entry)
    requires Splits(old_, level, p) && Layered(old_) && IsNewest(All(old_), k, s, e) && e in p.Ins() && e in p.kept
    requires NoneVisible(p.rest0, k, s)
    ensures FirstAnswers(Next(old_, level, p), k, s, AnswerOf(e))
  {
    var new_ := Next(old_, level, p);
    NextLevels(old_, level, p);
    PartsIn(old_, level, p);
    BothIn(old_, level, p);
    hide NoneVisible, IsNewest, Layered, Next;
    forall m | 0 <= m < level + 1 ensures NoneVisible(new_[m], k, s) {
      if m < level { ClearAbove(old_, level, p, k, s, e, m); }
    }
    PartNewest(p.rest1 + p.kept, All(old_), k, s, e);
    FirstFold(new_, k, s, level + 1, e);
  }

  lemma {:induction false} BothIn(old_: Levels, level: nat, p: Parts)
    requires Splits(old_, level, p)
    ensures p.rest1 + p.kept <= All(old_) && p.rest0 <= All(old_)
  {
    PartsIn(old_, level, p);
  }

  /** A version left at the upper level is read instead of one that moved down. */
  lemma {:induction false} LeftRead(old_: Levels, level: nat, p: Parts, k: UserKey, s: nat, e: Entry, x: Entry)
    requires Splits(old_, level, p) && Layered(old_) && IsNewest(All(old_), k, s, e) && e in p.Ins() &&
             IsNewest(p.rest0, k, s, x)
    ensures FirstAnswers(Next(old_, level, p), k, s, AnswerOf(x))
    ensures e in p.in0 && x.key.sequence < e.key.sequence
  {
    var new_ := Next(old_, level, p);
    NextLevels(old_, level, p);
    BothIn(old_, level, p);
    PartsIn(old_, level, p);
    assert x != e && x.key.sequence < e.key.sequence;
    assert NewerSet(old_[level], old_[level + 1]);
    hide NoneVisible, IsNewest, Layered, Next;
    forall m | 0 <= m < level ensures NoneVisible(new_[m], k, s) { ClearAbove(old_, level, p, k, s, e, m); }
    FirstFold(new_, k, s, level, x);
  }

  lemma {:induction false} LeftOvertakes(old_: Levels, level: nat, p: Parts, ss: nat, k: UserKey, s: nat, e: Entry,
                                         x: Entry)
    requires Splits(old_, level, p) && IsNewest(All(old_), k, s, e) && e in p.in0 && IsNewest(p.rest0, k, s, x) &&
             s >= ss
    requires x.key.sequence < e.key.sequence && AnswerOf(e) != AnswerOf(x)
    ensures OvertakesIn(old_, p, ss, e, x)
  {
  }

  /** With the newest version dropped and nothing above, the lower level decides. */
  lemma {:induction false} DroppedRead(old_: Levels, level: nat, p: Parts, ss: nat, k: UserKey, s: nat, e: Entry,
                                       x: Entry)
    requires Splits(old_, level, p) && Layered(old_) && SoundDrop(old_, level, p, ss) && s >= ss
    requires IsNewest(All(old_), k, s, e) && e in p.Ins() && e !in p.kept && NoneVisible(p.rest0, k, s) &&
             IsNewest(p.rest1, k, s, x)
    ensures FirstAnswers(Next(old_, level, p), k, s, AnswerOf(x)) && e.key.kind.Deletion?
    ensures x.key.kind.Value? ==> Exposes(old_, p, ss, e, x)
  {
    var new_ := Next(old_, level, p);
    NextLevels(old_, level, p);
    EmptiedByDeletion(old_, level, p, ss, k, s, e);
    KeptNotVisible(old_, level, p, ss, k, s, e);
    BothIn(old_, level, p);
    if x.key.kind.Value? { DropExposes(old_, level, p, ss, k, s, e, x); }
    NewestOfTwo(p.rest1, p.kept, k, s, x);
    hide NoneVisible, IsNewest, Layered, Next, SoundDrop;
    forall m | 0 <= m < level + 1 ensures NoneVisible(new_[m], k, s) {
      if m < level { ClearAbove(old_, level, p, k, s, e, m); }
    }
    FirstFold(new_, k, s, level + 1, x);
  }

  lemma {:induction false} NewestOfTwo(a: iset<Entry>, b: iset<Entry>, k: UserKey, s: nat, x: Entry)
    requires IsNewest(a, k, s, x) && NoneVisible(b, k, s)
    ensures IsNewest(a + b, k, s, x)
  {
  }

  lemma {:induction false} DropsObsolete(old_: Levels, level: nat, p: Parts, ss: nat, k: UserKey, s: nat, e: Entry)
    requires Splits(old_, level, p) && SoundDrop(old_, level, p, ss) && s >= ss
    requires IsNewest(All(old_), k, s, e) && e in p.Ins() && e !in p.kept
    ensures ObsoleteIn(old_, level, p, ss, e)
  {
    PartsIn(old_, level, p);
    assert !HiddenIn(p, ss, e);
  }

  lemma {:induction false} KeptNotVisible(old_: Levels, level: nat, p: Parts, ss: nat, k: UserKey, s: nat, e: Entry)
    requires Splits(old_, level, p) && SoundDrop(old_, level, p, ss) && s >= ss
    requires IsNewest(All(old_), k, s, e) && e in p.Ins() && e !in p.kept
    ensures NoneVisible(p.kept, k, s)
  {
    DropsObsolete(old_, level, p, ss, k, s, e);
    BothIn(old_, level, p);
  }

  lemma {:induction false} DropExposes(old_: Levels, level: nat, p: Parts, ss: nat, k: UserKey, s: nat, e: Entry,
                                       x: Entry)
    requires Splits(old_, level, p) && SoundDrop(old_, level, p, ss) && s >= ss
    requires IsNewest(All(old_), k, s, e) && e in p.Ins() && e !in p.kept && NoneVisible(p.rest0, k, s) &&
             IsNewest(p.rest1, k, s, x)
    requires x.key.kind.Value?
    ensures Exposes(old_, p, ss, e, x)
  {
    DropsObsolete(old_, level, p, ss, k, s, e);
    BothIn(old_, level, p);
    PartsIn(old_, level, p);
    assert x != e && x.key.sequence < e.key.sequence;
  }

  lemma {:induction false} DroppedNothing(old_: Levels, level: nat, p: Parts, ss: nat, k: UserKey, s: nat, e: Entry)
    requires Splits(old_, level, p) && Layered(old_) && SoundDrop(old_, level, p, ss) && s >= ss
    requires IsNewest(All(old_), k, s, e) && e in p.Ins() && e !in p.kept && NoneVisible(p.rest0, k, s) &&
             NoneVisible(p.rest1, k, s)
    ensures FirstAnswers(Next(old_, level, p), k, s, NotFound) && e.key.kind.Deletion?
  {
    var new_ := Next(old_, level, p);
    NextLevels(old_, level, p);
    DropsObsolete(old_, level, p, ss, k, s, e);
    KeptNotVisible(old_, level, p, ss, k, s, e);
    EitherNone(p.rest1, p.kept, p.rest1 + p.kept, k, s);
    forall m | level + 2 <= m < |old_| ensures NoneVisible(old_[m], k, s) {}
    hide NoneVisible, IsNewest, Layered, Next, SoundDrop, ObsoleteIn;
    forall m | 0 <= m < |new_| ensures NoneVisible(new_[m], k, s) {
      if m < level { ClearAbove(old_, level, p, k, s, e, m); }
    }
    FirstNone(new_, k, s);
  }

  /** If nothing is exposed and nothing overtaken, a read answers as before. */
  lemma {:induction false} FirstKept(old_: Levels, level: nat, p: Parts, ss: nat, k: UserKey, s: nat)
    returns (r: Answer)
    requires Splits(old_, level, p) && Layered(old_) && SoundDrop(old_, level, p, ss) && Unique(All(old_)) && s >= ss
    requires forall d, x :: !Exposes(old_, p, ss, d, x)
    requires forall e, x :: !OvertakesIn(old_, p, ss, e, x)
    ensures FirstAnswers(old_, k, s, r) && FirstAnswers(Next(old_, level, p), k, s, r)
  {
    hide *;
    NewestExists(All(old_), k, s);
    if NoneVisible(All(old_), k, s) {
      r := NotFound;
      NothingIsRead(old_, k, s);
      NextShrinks(old_, level, p);
      PartNone(All(Next(old_, level, p)), All(old_), k, s);
      NothingIsRead(Next(old_, level, p), k, s);
    } else {
      var e :| IsNewest(All(old_), k, s, e);
      NewestIsRead(old_, k, s, e);
      r := AnswerOf(e);
      if e !in p.Ins() { OutsideRead(old_, level, p, k, s, e); } else { InputKept(old_, level, p, ss, k, s, e); }
    }
  }

  lemma {:induction false} NextShrinks(old_: Levels, level: nat, p: Parts)
    requires Splits(old_, level, p) && Layered(old_)
    ensures level + 1 < |old_| && All(Next(old_, level, p)) <= All(old_)
  {
    forall e | e in All(Next(old_, level, p)) ensures e in All(old_) { NextContents(old_, level, p, e); }
  }

  lemma {:induction false} RestsUnique(old_: Levels, level: nat, p: Parts)
    requires Splits(old_, level, p) && Unique(All(old_))
    ensures Unique(p.rest0) && Unique(p.rest1)
  {
    PartsIn(old_, level, p);
    hide All;
  }

  lemma {:induction false} InputKept(old_: Levels, level: nat, p: Parts, ss: nat, k: UserKey, s: nat, e: Entry)
    requires Splits(old_, level, p) && Layered(old_) && SoundDrop(old_, level, p, ss) && Unique(All(old_)) && s >= ss
    requires forall d, x :: !Exposes(old_, p, ss, d, x)
    requires forall e, x :: !OvertakesIn(old_, p, ss, e, x)
    requires IsNewest(All(old_), k, s, e) && e in p.Ins()
    ensures FirstAnswers(Next(old_, level, p), k, s, AnswerOf(e))
  {
    hide *;
    RestsUnique(old_, level, p);
    NewestExists(p.rest0, k, s);
    NewestExists(p.rest1, k, s);
    AnswersAre(e);
    if !NoneVisible(p.rest0, k, s) {
      var x :| IsNewest(p.rest0, k, s, x);
      LeftRead(old_, level, p, k, s, e, x);
      if AnswerOf(e) != AnswerOf(x) { LeftOvertakes(old_, level, p, ss, k, s, e, x); }
    } else if e in p.kept {
      MovedRead(old_, level, p, k, s, e);
    } else if NoneVisible(p.rest1, k, s) {
      DroppedNothing(old_, level, p, ss, k, s, e);
    } else {
      var x :| IsNewest(p.rest1, k, s, x);
      DroppedRead(old_, level, p, ss, k, s, e, x);
      AnswersAre(x);
    }
  }

  lemma {:induction false} AnswersAre(e: Entry)
    ensures AnswerOf(e) == if e.key.kind.Value? then Found(e.value) else NotFound
    ensures e.key.kind.Deletion? <==> !e.key.kind.Value?
  {
  }

  /** An overtaken version is not read by the first reader who saw it. */
  lemma {:induction false} OvertakenIsLost(old_: Levels, level: nat, p: Parts, ss: nat, e: Entry, x: Entry)
    returns (s: nat)
    requires Splits(old_, level, p) && Layered(old_) && Unique(All(old_)) && OvertakesIn(old_, p, ss, e, x)
    ensures s >= ss && FirstAnswers(old_, e.key.user, s, AnswerOf(e)) && AnswerOf(e) != AnswerOf(x)
    ensures FirstAnswers(Next(old_, level, p), e.key.user, s, AnswerOf(x))
  {
    s := if e.key.sequence < ss then ss else e.key.sequence;
    PartsIn(old_, level, p);
    assert IsNewest(All(old_), e.key.user, s, e);
    assert IsNewest(p.rest0, e.key.user, s, x);
    hide IsNewest, Layered, Unique, Splits, FirstAnswers;
    NewestIsRead(old_, e.key.user, s, e);
    LeftRead(old_, level, p, e.key.user, s, e, x);
  }

  /** An exposed value is read at `ss`, where nothing was. */
  lemma {:induction false} ExposedIsRead(old_: Levels, level: nat, p: Parts, ss: nat, d: Entry, x: Entry)
    requires Splits(old_, level, p) && Layered(old_) && SoundDrop(old_, level, p, ss) && Unique(All(old_)) &&
             Exposes(old_, p, ss, d, x)
    ensures FirstAnswers(old_, d.key.user, ss, NotFound) &&
            FirstAnswers(Next(old_, level, p), d.key.user, ss, Found(x.value))
  {
    var k := d.key.user;
    ExposesParts(old_, level, p, ss, d, x);
    hide *;
    AnswersAre(d);
    AnswersAre(x);
    RestsUnique(old_, level, p);
    NewestIsRead(old_, k, ss, d);
    if x in p.rest0 {
      LeftRead(old_, level, p, k, ss, d, x);
    } else {
      DroppedRead(old_, level, p, ss, k, ss, d, x);
    }
  }

  lemma {:induction false} ExposesParts(old_: Levels, level: nat, p: Parts, ss: nat, d: Entry, x: Entry)
    requires Splits(old_, level, p) && Layered(old_) && Unique(All(old_)) && Exposes(old_, p, ss, d, x)
    ensures IsNewest(All(old_), d.key.user, ss, d) && d in p.Ins() && d !in p.kept && d.key.kind.Deletion? &&
            x.key.kind.Value?
    ensures x in p.rest0 ==> IsNewest(p.rest0, d.key.user, ss, x)
    ensures x !in p.rest0 ==> NoneVisible(p.rest0, d.key.user, ss) && IsNewest(p.rest1, d.key.user, ss, x)
  {
    PartsIn(old_, level, p);
    assert NewerSet(old_[level], old_[level + 1]);
    hide All, Layered;
  }

  /** Read level by level, a compaction keeps every read from `ss` on exactly when it
      exposes nothing and nothing it moves down is overtaken. */
  lemma {:induction false} FirstKeptExactly(old_: Levels, level: nat, p: Parts, ss: nat)
    requires Splits(old_, level, p) && Layered(old_) && SoundDrop(old_, level, p, ss) && Unique(All(old_))
    ensures SameFirst(old_, Next(old_, level, p), ss) <==>
            (forall d, x :: !Exposes(old_, p, ss, d, x)) && (forall e, x :: !OvertakesIn(old_, p, ss, e, x))
  {
    hide Splits, Layered, SoundDrop, Unique, Exposes, OvertakesIn, FirstAnswers, Next;
    SplitsBound(old_, level, p);
    var new_ := Next(old_, level, p);
    if d, x :| Exposes(old_, p, ss, d, x) {
      ExposedIsRead(old_, level, p, ss, d, x);
      if FirstAnswers(old_, d.key.user, ss, Found(x.value)) {
        FirstUnique(old_, d.key.user, ss, Found(x.value), NotFound);
      }
    } else if e, x :| OvertakesIn(old_, p, ss, e, x) {
      var s := OvertakenIsLost(old_, level, p, ss, e, x);
      if FirstAnswers(old_, e.key.user, s, AnswerOf(x)) { FirstUnique(old_, e.key.user, s, AnswerOf(x), AnswerOf(e)); }
    } else {
      forall k, s, r | s >= ss ensures FirstAnswers(old_, k, s, r) <==> FirstAnswers(new_, k, s, r) {
        var r0 := FirstKept(old_, level, p, ss, k, s);
        if FirstAnswers(old_, k, s, r) { FirstUnique(old_, k, s, r, r0); }
        if FirstAnswers(new_, k, s, r) { FirstUnique(new_, k, s, r, r0); }
      }
    }
  }

  lemma {:induction false} SplitsBound(old_: Levels, level: nat, p: Parts)
    requires Splits(old_, level, p)
    ensures level + 1 < |old_|
  {
  }
}

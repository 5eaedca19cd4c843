/** Choice of compaction inputs (db/version_set.cc): GetOverlappingInputs with
    its level-0 restarts, GetRange and SetupOtherInputs. */
module Inputs {
  import opened Keys
  import opened Versions

  /** A user key bound; `Open` is a null pointer. */
  datatype Bound = Open | At(k: UserKey)
  datatype Range = Range(lo: Bound, hi: Bound)

  predicate Overlaps(f: FileMeta, r: Range) {
    && (r.lo.At? ==> f.largest.user >= r.lo.k)
    && (r.hi.At? ==> f.smallest.user <= r.hi.k)
  }

  function Overlapping(files: seq<FileMeta>, r: Range): seq<FileMeta> {
    if files == [] then []
    else
      var rest := Overlapping(files[..|files| - 1], r);
      if Overlaps(files[|files| - 1], r) then rest + [files[|files| - 1]] else rest
  }

  lemma {:induction false} OverlappingMembers(files: seq<FileMeta>, r: Range)
    ensures forall f :: f in Overlapping(files, r) <==> f in files && Overlaps(f, r)
  {
    if files != [] {
      OverlappingMembers(files[..|files| - 1], r);
      assert files == files[..|files| - 1] + [files[|files| - 1]];
    }
  }

  predicate Within(f: FileMeta, r: Range) {
    && (r.lo.At? ==> r.lo.k <= f.smallest.user)
    && (r.hi.At? ==> f.largest.user <= r.hi.k)
  }

  /** `inner` lies in `outer`. */
  predicate Inside(inner: Range, outer: Range) {
    && (outer.lo.At? ==> inner.lo.At? && outer.lo.k <= inner.lo.k)
    && (outer.hi.At? ==> inner.hi.At? && inner.hi.k <= outer.hi.k)
  }

  /** No file sticks out of the range it overlaps. */
  ghost predicate Closed(files: seq<FileMeta>, r: Range) {
    forall i :: 0 <= i < |files| && Overlaps(files[i], r) ==> Within(files[i], r)
  }

  /** `r` is the least closed range around `want`, bounded on the same sides. */
  ghost predicate LeastClosed(files: seq<FileMeta>, want: Range, r: Range) {
    && Inside(want, r)
    && Closed(files, r)
    && forall o :: SameSides(want, o) && Inside(want, o) && Closed(files, o) ==> Inside(r, o)
  }

  predicate SameSides(a: Range, b: Range) {
    a.lo.At? == b.lo.At? && a.hi.At? == b.hi.At?
  }

  /** How many files reach beyond a bounded side of `r`. */
  function Protruding(files: seq<FileMeta>, r: Range): nat {
    if files == [] then 0
    else
      Protruding(files[..|files| - 1], r)
      + (if r.lo.At? && files[|files| - 1].smallest.user < r.lo.k then 1 else 0)
      + (if r.hi.At? && files[|files| - 1].largest.user > r.hi.k then 1 else 0)
  }

  lemma {:induction false} ProtrudingShrinks(files: seq<FileMeta>, r: Range, wide: Range)
    requires SameSides(r, wide) && Inside(r, wide)
    ensures Protruding(files, wide) <= Protruding(files, r)
    ensures forall i :: 0 <= i < |files| && (SticksOutLow(files[i], r, wide) || SticksOutHigh(files[i], r, wide))
              ==> Protruding(files, wide) < Protruding(files, r)
  {
    if files != [] {
      var init := files[..|files| - 1];
      ProtrudingShrinks(init, r, wide);
      forall i | 0 <= i < |files| && (SticksOutLow(files[i], r, wide) || SticksOutHigh(files[i], r, wide))
        ensures Protruding(files, wide) < Protruding(files, r)
      {
        if i < |init| { assert init[i] == files[i]; }
      }
    }
  }

  predicate SticksOutLow(f: FileMeta, r: Range, wide: Range)
    requires SameSides(r, wide)
  {
    r.lo.At? && wide.lo.k <= f.smallest.user < r.lo.k
  }

  predicate SticksOutHigh(f: FileMeta, r: Range, wide: Range)
    requires SameSides(r, wide)
  {
    r.hi.At? && r.hi.k < f.largest.user <= wide.hi.k
  }

  /** Version::GetOverlappingInputs. Above level 0 it lists the files that overlap
      the request; at level 0 it restarts whenever a file widens the range, stops,
      and lists the files of the least closed range around the request. */
  method GetOverlappingInputs(level: nat, files: seq<FileMeta>, want: Range) returns (inputs: seq<FileMeta>,
                              ghost r: Range)
    ensures inputs == Overlapping(files, r)
    ensures level > 0 ==> r == want
    ensures level == 0 ==> LeastClosed(files, want, r) && SameSides(want, r)
  {
    inputs, r := [], want;
    var now := want;
    var i := 0;
    while i < |files|
      invariant 0 <= i <= |files| && r == now
      invariant inputs == Overlapping(files[..i], r)
      invariant level > 0 ==> r == want
      invariant SameSides(want, r) && Inside(want, r)
      invariant forall o :: SameSides(want, o) && Inside(want, o) && Closed(files, o) ==> Inside(r, o)
      invariant level == 0 ==> forall j :: 0 <= j < i && Overlaps(files[j], r) ==> Within(files[j], r)
      decreases Protruding(files, r), |files| - i
    {
      var f := files[i];
      assert files[..i + 1][..i] == files[..i];
      i := i + 1;
      if now.lo.At? && f.largest.user < now.lo.k {
        // completely before the range
      } else if now.hi.At? && f.smallest.user > now.hi.k {
        // completely after the range
      } else {
        inputs := inputs + [f];
        if level == 0 {
          if now.lo.At? && f.smallest.user < now.lo.k {
            ProtrudingShrinks(files, now, now.(lo := At(f.smallest.user)));
            now := now.(lo := At(f.smallest.user));
            inputs, i, r := [], 0, now;
          } else if now.hi.At? && f.largest.user > now.hi.k {
            ProtrudingShrinks(files, now, now.(hi := At(f.largest.user)));
            now := now.(hi := At(f.largest.user));
            inputs, i, r := [], 0, now;
          }
        }
      }
    }
    assert files[..|files|] == files;
  }

  // ----- GetRange and SetupOtherInputs -----

  /** The key ranges are not inverted, as in every file on disk. */
  predicate Sane(files: seq<FileMeta>) {
    forall i :: 0 <= i < |files| ==> files[i].smallest.user <= files[i].largest.user
  }

  predicate Encloses(inputs: seq<FileMeta>, smallest: InternalKey, largest: InternalKey) {
    && (forall i :: 0 <= i < |inputs| ==> !Before(inputs[i].smallest, smallest) && !Before(largest, inputs[i].largest))
    && (exists i :: 0 <= i < |inputs| && inputs[i].smallest == smallest)
    && (exists i :: 0 <= i < |inputs| && inputs[i].largest == largest)
  }

  /** The least internal key range that covers all inputs. */
  method GetRange(inputs: seq<FileMeta>) returns (smallest: InternalKey, largest: InternalKey)
    requires inputs != []
    ensures Encloses(inputs, smallest, largest)
  {
    smallest, largest := inputs[0].smallest, inputs[0].largest;
    for i := 1 to |inputs|
      invariant forall j :: 0 <= j < i ==> !Before(inputs[j].smallest, smallest) && !Before(largest, inputs[j].largest)
      invariant exists j :: 0 <= j < i && inputs[j].smallest == smallest
      invariant exists j :: 0 <= j < i && inputs[j].largest == largest
    {
      if Before(inputs[i].smallest, smallest) {
        smallest := inputs[i].smallest;
      }
      if Before(largest, inputs[i].largest) {
        largest := inputs[i].largest;
      }
    }
  }

  function UserRange(smallest: InternalKey, largest: InternalKey): Range {
    Range(At(smallest.user), At(largest.user))
  }

  predicate Subset(xs: seq<FileMeta>, ys: seq<FileMeta>) {
    forall i :: 0 <= i < |xs| ==> xs[i] in ys
  }

  /** All of `fs` lies on one side of `g`, in internal key order. */
  predicate Apart(g: FileMeta, fs: seq<FileMeta>) {
    || (forall i :: 0 <= i < |fs| ==> Precedes(g.largest, fs[i].smallest))
    || (forall i :: 0 <= i < |fs| ==> Precedes(fs[i].largest, g.smallest))
  }

  /** Every file left behind in the output level is on one side of all inputs. */
  ghost predicate OneSided(files1: seq<FileMeta>, in0: seq<FileMeta>, in1: seq<FileMeta>) {
    forall i :: 0 <= i < |files1| && files1[i] !in in1 ==> Apart(files1[i], in0) && Apart(files1[i], in0 + in1)
  }

  /** No file left behind shares a user key range with a chosen one. */
  ghost predicate ClosedSet(files: seq<FileMeta>, xs: seq<FileMeta>) {
    forall i, j :: 0 <= i < |files| && files[i] !in xs && 0 <= j < |xs|
      ==> files[i].largest.user < xs[j].smallest.user || xs[j].largest.user < files[i].smallest.user
  }

  /** No file left behind in the output level shares a user key with `in0`. */
  ghost predicate Clear(files1: seq<FileMeta>, in0: seq<FileMeta>, in1: seq<FileMeta>) {
    forall i, j :: 0 <= i < |files1| && files1[i] !in in1 && 0 <= j < |in0|
      ==> files1[i].largest.user < in0[j].smallest.user || in0[j].largest.user < files1[i].smallest.user
  }

  lemma {:induction false} ClosedRangeIsClosedSet(files: seq<FileMeta>, r: Range)
    requires Closed(files, r)
    ensures ClosedSet(files, Overlapping(files, r))
  {
    OverlappingMembers(files, r);
    var xs := Overlapping(files, r);
    forall i, j | 0 <= i < |files| && files[i] !in xs && 0 <= j < |xs|
      ensures files[i].largest.user < xs[j].smallest.user || xs[j].largest.user < files[i].smallest.user
    {
      assert xs[j] in files && Overlaps(xs[j], r) && !Overlaps(files[i], r);
      var n :| 0 <= n < |files| && files[n] == xs[j];
      assert Within(files[n], r);
    }
  }

  /** The files of a disjoint level that overlap the user range of `in0` leave
      only files that are on one side of everything chosen. */
  lemma {:induction false} OverlapIsOneSided(files1: seq<FileMeta>, in0: seq<FileMeta>, smallest: InternalKey,
                                             largest: InternalKey)
    requires Disjoint(files1) && Sane(files1) && Sane(in0) && in0 != []
    requires Encloses(in0, smallest, largest)
    ensures OneSided(files1, in0, Overlapping(files1, UserRange(smallest, largest)))
    ensures Clear(files1, in0, Overlapping(files1, UserRange(smallest, largest)))
  {
    var r := UserRange(smallest, largest);
    var in1 := Overlapping(files1, r);
    OverlappingMembers(files1, r);
    assert forall i :: 0 <= i < |files1| && files1[i] !in in1 ==> !Overlaps(files1[i], r);
    forall i | 0 <= i < |files1| && files1[i] !in in1
      ensures Apart(files1[i], in0) && Apart(files1[i], in0 + in1)
    {
      var g := files1[i];
      assert !Overlaps(g, r);
      forall j | 0 <= j < |in1|
        ensures if g.largest.user < smallest.user then Precedes(g.largest, in1[j].smallest)
                else Precedes(in1[j].largest, g.smallest)
      {
        assert in1[j] in files1 && Overlaps(in1[j], r);
        var n :| 0 <= n < |files1| && files1[n] == in1[j];
        assert n < i ==> Precedes(files1[n].largest, g.smallest);
        assert i < n ==> Precedes(g.largest, files1[n].smallest);
      }
      var all := in0 + in1;
      assert forall j :: 0 <= j < |all| ==> all[j] == if j < |in0| then in0[j] else in1[j - |in0|];
      if g.largest.user < smallest.user {
        assert forall j :: 0 <= j < |all| ==> Precedes(g.largest, all[j].smallest);
      } else {
        assert forall j :: 0 <= j < |all| ==> Precedes(all[j].largest, g.smallest);
      }
    }
  }

  const KTargetFileSize: nat := 2 * 1048576
  const KExpandedCompactionByteSizeLimit: nat := 25 * KTargetFileSize

  function TotalFileSize(files: seq<FileMeta>): nat {
    if files == [] then 0 else TotalFileSize(files[..|files| - 1]) + files[|files| - 1].size
  }

  /** What a pair of input sets must satisfy when its compaction is installed. */
  ghost predicate Fit(files0: seq<FileMeta>, files1: seq<FileMeta>, in0: seq<FileMeta>, in1: seq<FileMeta>) {
    && in0 != []
    && Subset(in0, files0) && Subset(in1, files1)
    && OneSided(files1, in0, in1) && Clear(files1, in0, in1)
  }

  /** What it satisfies when it is chosen. */
  ghost predicate Chosen(level: nat, files0: seq<FileMeta>, files1: seq<FileMeta>, in0: seq<FileMeta>,
                         in1: seq<FileMeta>) {
    Fit(files0, files1, in0, in1) && (level == 0 ==> ClosedSet(files0, in0))
  }

  /** `in1` is what the user key range of `in0` overlaps, no more and no less. */
  ghost predicate Picks(files1: seq<FileMeta>, in0: seq<FileMeta>, in1: seq<FileMeta>) {
    exists smallest, largest ::
      Encloses(in0, smallest, largest) && in1 == Overlapping(files1, UserRange(smallest, largest))
  }

  /** `w` is the request that the level is asked again with: the user key range of all
      inputs, closed under overlap at level 0. */
  ghost predicate Widened(level: nat, files0: seq<FileMeta>, inputs0: seq<FileMeta>, in1: seq<FileMeta>, w: Range) {
    exists start, limit ::
      && Encloses(inputs0 + in1, start, limit)
      && if level == 0 then LeastClosed(files0, UserRange(start, limit), w) else w == UserRange(start, limit)
  }

  /** Growing pays and is allowed: more files, within the limit, and no more files of the
      next level. */
  ghost predicate MayGrow(files0: seq<FileMeta>, files1: seq<FileMeta>, inputs0: seq<FileMeta>, in1: seq<FileMeta>,
                          w: Range) {
    var expanded0 := Overlapping(files0, w);
    && |expanded0| > |inputs0| && TotalFileSize(in1) + TotalFileSize(expanded0) < KExpandedCompactionByteSizeLimit
    && exists expanded1 :: Picks(files1, expanded0, expanded1) && |expanded1| == |in1|
  }

  /** VersionSet::SetupOtherInputs: pick the level + 1 files, then try to grow the
      level inputs within a byte limit. Growing keeps the first inputs and leaves
      the level + 1 files as they were, and the pair is fit to be compacted. */
  method SetupOtherInputs(level: nat, files0: seq<FileMeta>, files1: seq<FileMeta>, inputs0: seq<FileMeta>)
    returns (in0: seq<FileMeta>, in1: seq<FileMeta>)
    requires inputs0 != [] && Subset(inputs0, files0)
    requires Sane(files0) && Sane(files1) && Disjoint(files1)
    requires level == 0 ==> ClosedSet(files0, inputs0)
    ensures Chosen(level, files0, files1, in0, in1)
    ensures Subset(inputs0, in0)
    ensures Picks(files1, in0, in1) && Picks(files1, inputs0, in1)
    ensures in0 == inputs0 ||
            (|in0| > |inputs0| && TotalFileSize(in1) + TotalFileSize(in0) < KExpandedCompactionByteSizeLimit)
    ensures in0 == inputs0 || exists w :: in0 == Overlapping(files0, w)
    ensures in1 == [] ==> in0 == inputs0
    ensures in1 != [] ==> exists w :: Widened(level, files0, inputs0, in1, w) &&
                                      in0 == if MayGrow(files0, files1, inputs0, in1, w) then Overlapping(files0, w)
                                        else inputs0
  {
    hide *;
    var smallest, largest := GetRange(inputs0);
    ghost var r;
    in0 := inputs0;
    in1, r := GetOverlappingInputs(level + 1, files1, UserRange(smallest, largest));
    SelectionIsChosen(level, files0, files1, inputs0, smallest, largest);
    PicksFold(files1, inputs0, smallest, largest);
    SubsetSelf(inputs0);
    if in1 != [] {
      in0, in1 := Grow(level, files0, files1, inputs0, in1, smallest, largest);
    }
  }

  /** The second half of SetupOtherInputs, when there are files of the next level. */
  method Grow(level: nat, files0: seq<FileMeta>, files1: seq<FileMeta>, inputs0: seq<FileMeta>, inputs1: seq<FileMeta>,
              ghost smallest: InternalKey, ghost largest: InternalKey)
    returns (in0: seq<FileMeta>, in1: seq<FileMeta>)
    requires inputs0 != [] && Subset(inputs0, files0) && Sane(files0) && Sane(files1) && Disjoint(files1)
    requires Chosen(level, files0, files1, inputs0, inputs1) && Picks(files1, inputs0, inputs1) && inputs1 != []
    requires Encloses(inputs0, smallest, largest) && inputs1 == Overlapping(files1, UserRange(smallest, largest))
    ensures Chosen(level, files0, files1, in0, in1) && Subset(inputs0, in0) && in1 == inputs1 && Picks(files1, in0, in1)
    ensures in0 == inputs0 ||
            (|in0| > |inputs0| && TotalFileSize(in1) + TotalFileSize(in0) < KExpandedCompactionByteSizeLimit)
    ensures exists w :: Widened(level, files0, inputs0, in1, w) &&
                        in0 == if MayGrow(files0, files1, inputs0, in1, w) then Overlapping(files0, w) else inputs0
  {
    hide *;
    in0, in1 := inputs0, inputs1;
    SubsetSelf(inputs0);
    var allStart, allLimit := GetRange(in0 + in1);
    var expanded0, r := GetOverlappingInputs(level, files0, UserRange(allStart, allLimit));
    WidenedFold(level, files0, inputs0, in1, allStart, allLimit, r);
    ExpansionKeeps(files0, inputs0, in1, allStart, allLimit, r);
    MayGrowIs(files0, files1, inputs0, in1, r);
    ghost var w := r;
    if |expanded0| > |in0| && TotalFileSize(in1) + TotalFileSize(expanded0) < KExpandedCompactionByteSizeLimit {
      var newStart, newLimit := GetRange(expanded0);
      if level == 0 { ClosedRangeIsClosedSet(files0, r); }
      SelectionIsChosen(level, files0, files1, expanded0, newStart, newLimit);
      PicksFold(files1, expanded0, newStart, newLimit);
      ghost var r';
      var expanded1;
      expanded1, r' := GetOverlappingInputs(level + 1, files1, UserRange(newStart, newLimit));
      WiderOverlaps(files1, inputs0, expanded0, smallest, largest, newStart, newLimit);
      PicksOnly(files1, expanded0, expanded1);
      if |expanded1| == |in1| {
        in0, in1 := expanded0, expanded1;
      }
    }
    assert Widened(level, files0, inputs0, in1, w);
  }

  lemma {:induction false} SubsetSelf(xs: seq<FileMeta>)
    ensures Subset(xs, xs)
  {
  }

  lemma {:induction false} PicksFold(files1: seq<FileMeta>, in0: seq<FileMeta>, smallest: InternalKey,
                                     largest: InternalKey)
    requires Encloses(in0, smallest, largest)
    ensures Picks(files1, in0, Overlapping(files1, UserRange(smallest, largest)))
  {
  }

  lemma {:induction false} WidenedFold(level: nat, files0: seq<FileMeta>, inputs0: seq<FileMeta>, in1: seq<FileMeta>,
                                       start: InternalKey, limit: InternalKey, w: Range)
    requires Encloses(inputs0 + in1, start, limit)
    requires level > 0 ==> w == UserRange(start, limit)
    requires level == 0 ==> LeastClosed(files0, UserRange(start, limit), w)
    ensures Widened(level, files0, inputs0, in1, w) && Inside(UserRange(start, limit), w) &&
            (level == 0 ==> Closed(files0, w))
  {
  }

  lemma {:induction false} MayGrowIs(files0: seq<FileMeta>, files1: seq<FileMeta>, inputs0: seq<FileMeta>,
                                     in1: seq<FileMeta>, w: Range)
    ensures var expanded0 := Overlapping(files0, w);
            MayGrow(files0, files1, inputs0, in1, w) <==>
            && |expanded0| > |inputs0| && TotalFileSize(in1) +
               TotalFileSize(expanded0) < KExpandedCompactionByteSizeLimit
            && exists expanded1 :: Picks(files1, expanded0, expanded1) && |expanded1| == |in1|
  {
  }

  /** There is one choice of lower files only. */
  lemma {:induction false} PicksOnly(files1: seq<FileMeta>, in0: seq<FileMeta>, in1: seq<FileMeta>)
    requires Picks(files1, in0, in1)
    ensures forall xs :: Picks(files1, in0, xs) ==> xs == in1
  {
    var s, l :| Encloses(in0, s, l) && in1 == Overlapping(files1, UserRange(s, l));
    forall xs | Picks(files1, in0, xs) ensures xs == in1 {
      var s', l' :| Encloses(in0, s', l') && xs == Overlapping(files1, UserRange(s', l'));
      EnclosesOnly(in0, s, l, s', l');
    }
  }

  lemma {:induction false} EnclosesOnly(inputs: seq<FileMeta>, s: InternalKey, l: InternalKey, s': InternalKey,
                                        l': InternalKey)
    requires Encloses(inputs, s, l) && Encloses(inputs, s', l')
    ensures s == s' && l == l'
  {
    BeforeIsPackedOrder(s, s');
    BeforeIsPackedOrder(l, l');
  }

  /** A wider range overlaps at least as many files, and the same ones if it
      overlaps as many. */
  lemma {:induction false} OverlappingGrows(files: seq<FileMeta>, r: Range, wide: Range)
    requires Inside(r, wide)
    ensures |Overlapping(files, r)| <= |Overlapping(files, wide)|
    ensures |Overlapping(files, r)| == |Overlapping(files, wide)| ==> Overlapping(files, r) == Overlapping(files, wide)
  {
    if files != [] {
      OverlappingGrows(files[..|files| - 1], r, wide);
    }
  }

  lemma {:induction false} WiderOverlaps(files1: seq<FileMeta>, inputs0: seq<FileMeta>, expanded0: seq<FileMeta>,
                      smallest: InternalKey, largest: InternalKey, newStart: InternalKey, newLimit: InternalKey)
    requires Subset(inputs0, expanded0)
    requires Encloses(inputs0, smallest, largest) && Encloses(expanded0, newStart, newLimit)
    ensures var few, many := Overlapping(files1, UserRange(smallest, largest)),
            Overlapping(files1, UserRange(newStart, newLimit));
            |few| == |many| ==> few == many
  {
    var i :| 0 <= i < |inputs0| && inputs0[i].smallest == smallest;
    var j :| 0 <= j < |inputs0| && inputs0[j].largest == largest;
    assert inputs0[i] in expanded0 && inputs0[j] in expanded0;
    OverlappingGrows(files1, UserRange(smallest, largest), UserRange(newStart, newLimit));
  }

  lemma {:induction false} SelectionIsChosen(level: nat, files0: seq<FileMeta>, files1: seq<FileMeta>,
                                             in0: seq<FileMeta>,
                          smallest: InternalKey, largest: InternalKey)
    requires in0 != [] && Subset(in0, files0)
    requires Sane(files0) && Sane(files1) && Disjoint(files1)
    requires level == 0 ==> ClosedSet(files0, in0)
    requires Encloses(in0, smallest, largest)
    ensures Chosen(level, files0, files1, in0, Overlapping(files1, UserRange(smallest, largest)))
  {
    forall i | 0 <= i < |in0| ensures in0[i].smallest.user <= in0[i].largest.user {
      assert in0[i] in files0;
    }
    OverlapIsOneSided(files1, in0, smallest, largest);
    OverlappingMembers(files1, UserRange(smallest, largest));
  }

  /** The enlarged request still picks up every file it started from. */
  lemma {:induction false} ExpansionKeeps(files0: seq<FileMeta>, inputs0: seq<FileMeta>, in1: seq<FileMeta>,
                       start: InternalKey, limit: InternalKey, r: Range)
    requires Subset(inputs0, files0) && Sane(files0)
    requires Encloses(inputs0 + in1, start, limit)
    requires Inside(UserRange(start, limit), r)
    ensures Subset(inputs0, Overlapping(files0, r))
    ensures Subset(Overlapping(files0, r), files0)
  {
    OverlappingMembers(files0, r);
    forall i | 0 <= i < |inputs0| ensures inputs0[i] in Overlapping(files0, r) {
      assert (inputs0 + in1)[i] == inputs0[i];
      assert inputs0[i] in files0;
    }
  }
}

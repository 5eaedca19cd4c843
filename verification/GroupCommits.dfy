/** The writer queue (db/db_impl.cc, DBImpl::Write and BuildBatchGroup): the writer at the
    front takes the batches of those behind it into one log record, and then lets them
    all go. */
module GroupCommits {
  import opened Keys
  import opened Coding
  import opened WriteBatches

  /** A null batch asks for a compaction. A batch carries the number its header was last
      stamped with. */
  datatype Batch = Null | Filled(stamp: U64, ops: seq<Op>)

  datatype Waiting = Waiting(id: nat, batch: Batch, sync: bool)

  type Queue = seq<Waiting>

  function OpsOf(b: Batch): seq<Op> { if b.Null? then [] else b.ops }

  /** The operations of a stretch of the queue, in order. */
  function AllOps(q: Queue): seq<Op> {
    if q == [] then [] else AllOps(q[..|q| - 1]) + OpsOf(q[|q| - 1].batch)
  }

  function ByteSize(ops: seq<Op>): nat { KHeader + |OpsBytes(ops)| }

  predicate BatchFits(b: Batch) { b.Filled? ==> OpsFit(b.ops) }

  predicate QueueFits(q: Queue) { forall i :: 0 <= i < |q| ==> BatchFits(q[i].batch) }

  // ----- the group -----

  /** A group may grow to 1 MB, or by 128 KB if it starts small. */
  function MaxSize(size: nat): nat { if size <= 0x2_0000 then size + 0x2_0000 else 0x10_0000 }

  function SizeWith(size: nat, b: Batch): nat { if b.Null? then size else size + ByteSize(b.ops) }

  /** `w` may join a group led by `first` that has `size` bytes so far. */
  predicate Joins(first: Waiting, size: nat, max: nat, w: Waiting) {
    !(w.sync && !first.sync) && (w.batch.Filled? ==> SizeWith(size, w.batch) <= max)
  }

  /** The bytes of the first `n` batches, each with its header. */
  function GroupSize(q: Queue, n: nat): nat
    requires n <= |q|
  {
    if n == 0 then 0 else SizeWith(GroupSize(q, n - 1), q[n - 1].batch)
  }

  /** The first `n` form a group, and the next writer may not join. */
  predicate IsGroup(q: Queue, n: nat) {
    && 1 <= n <= |q| && q[0].batch.Filled?
    && var max := MaxSize(GroupSize(q, 1));
    && (forall i :: 1 <= i < n ==> Joins(q[0], GroupSize(q, i), max, q[i]))
    && (n < |q| ==> !Joins(q[0], GroupSize(q, n), max, q[n]))
  }

  lemma {:induction false} GroupBytes(q: Queue, n: nat)
    requires n <= |q|
    ensures |OpsBytes(AllOps(q[..n]))| <= GroupSize(q, n)
  {
    if n > 0 {
      GroupBytes(q, n - 1);
      assert q[..n][..n - 1] == q[..n - 1];
      OpsConcat(AllOps(q[..n - 1]), OpsOf(q[n - 1].batch));
    }
  }

  lemma {:induction false} MoreFit(ops: seq<Op>, more: seq<Op>)
    requires OpsFit(ops) && OpsFit(more) && |OpsBytes(ops)| + |OpsBytes(more)| <= 0x20_0000
    ensures OpsFit(ops + more)
  {
    OpsSize(ops);
    OpsSize(more);
  }

  /** A group with a second batch in it is small. */
  lemma {:induction false} JoinedFits(q: Queue, n: nat)
    requires QueueFits(q) && 1 <= n < |q| && q[n].batch.Filled? && OpsFit(AllOps(q[..n]))
    requires Joins(q[0], GroupSize(q, n), MaxSize(GroupSize(q, 1)), q[n])
    ensures OpsFit(AllOps(q[..n]) + q[n].batch.ops)
  {
    hide OpsFit, AllOps, OpsBytes;
    GroupBytes(q, n);
    assert BatchFits(q[n].batch);
    MoreFit(AllOps(q[..n]), q[n].batch.ops);
  }

  lemma {:induction false} AllOpsNext(q: Queue, n: nat)
    requires n < |q|
    ensures AllOps(q[..n + 1]) == AllOps(q[..n]) + OpsOf(q[n].batch)
  {
    assert q[..n + 1][..n] == q[..n];
  }

  lemma {:induction false} AllOpsSnoc(p: Queue, w: Waiting)
    ensures AllOps(p + [w]) == AllOps(p) + OpsOf(w.batch)
  {
    assert (p + [w])[..|p|] == p;
  }

  lemma {:induction false} AllOpsConcat(p: Queue, q: Queue)
    ensures AllOps(p + q) == AllOps(p) + AllOps(q)
  {
    if q == [] {
      assert p + q == p;
    } else {
      hide AllOps;
      var m := |q| - 1;
      var init, w := q[..m], q[m];
      AllOpsConcat(p, init);
      assert q == init + [w] && p + q == (p + init) + [w];
      AllOpsSnoc(p + init, w);
      AllOpsSnoc(init, w);
      Regroup(AllOps(p), AllOps(init), OpsOf(w.batch));
    }
  }

  lemma {:induction false} Regroup<T>(a: seq<T>, b: seq<T>, c: seq<T>)
    ensures a + (b + c) == (a + b) + c
  {
  }

  /** Adds a batch to the group; the leader's own batch is copied first. */
  method Join(group: WriteBatch, own: bool, b: Batch) returns (group': WriteBatch)
    requires group.Ok() && b.Filled? && OpsFit(b.ops) && OpsFit(group.ops + b.ops)
    modifies if own then {} else {group}
    ensures group'.Ok() && group'.ops == old(group.ops) + b.ops
    ensures if own then fresh(group') else group' == group
  {
    hide BatchBytes, OpsFit;
    group' := group;
    if own {
      group' := new WriteBatch();
      EmptyFirst(group.ops);
      group.OkParts();
      group'.Append(group);
    }
    var src := new WriteBatch.Of(Rep(b), b.stamp, b.ops);
    group'.Append(src);
  }

  lemma {:induction false} EmptyFirst(ops: seq<Op>)
    ensures [] + ops == ops
  {
  }

  function Rep(b: Batch): Bytes
    requires b.Filled? && OpsFit(b.ops)
  {
    BatchBytes(b.stamp, b.ops)
  }

  lemma {:induction false} FirstAlone(q: Queue)
    requires QueueFits(q) && q != [] && q[0].batch.Filled?
    ensures OpsFit(q[0].batch.ops) && AllOps(q[..1]) == q[0].batch.ops && GroupSize(q, 1) == ByteSize(q[0].batch.ops)
  {
    assert BatchFits(q[0].batch);
    assert q[..1][..0] == [];
  }

  lemma {:induction false} FitsAt(q: Queue, n: nat)
    requires QueueFits(q) && n < |q| && q[n].batch.Filled?
    ensures OpsFit(q[n].batch.ops)
  {
    assert BatchFits(q[n].batch);
  }

  lemma {:induction false} NullAdds(q: Queue, n: nat)
    requires n < |q| && q[n].batch.Null?
    ensures AllOps(q[..n + 1]) == AllOps(q[..n])
  {
    AllOpsNext(q, n);
  }

  /** BuildBatchGroup: the record to be logged, before its header is stamped, and how
      many writers it serves. */
  method BuildBatchGroup(q: Queue) returns (group: WriteBatch, n: nat)
    requires QueueFits(q) && q != [] && q[0].batch.Filled?
    ensures IsGroup(q, n) && fresh(group) && group.Ok() && group.ops == AllOps(q[..n])
  {
    hide AllOps, OpsBytes, OpsFit, BatchBytes, MaxSize;
    var first := q[0];
    FirstAlone(q);
    group := new WriteBatch.Of(Rep(first.batch), first.batch.stamp, first.batch.ops);
    var own := true;
    var size := ByteSize(first.batch.ops);
    var max := MaxSize(size);
    n := 1;
    while n < |q|
      invariant 1 <= n <= |q| && fresh(group) && group.Ok() && group.ops == AllOps(q[..n])
      invariant size == GroupSize(q, n) && max == MaxSize(GroupSize(q, 1))
      invariant forall i :: 1 <= i < n ==> Joins(q[0], GroupSize(q, i), max, q[i])
    {
      var w := q[n];
      if w.sync && !first.sync {
        break;
      }
      if w.batch.Filled? {
        if size + ByteSize(w.batch.ops) > max {
          break;
        }
        group.OkParts();
        JoinedFits(q, n);
        AllOpsNext(q, n);
        FitsAt(q, n);
        group := Join(group, own, w.batch);
        own, size := false, size + ByteSize(w.batch.ops);
      } else {
        NullAdds(q, n);
      }
      n := n + 1;
    }
  }

  /** Lets the writers go, from the front up to the last one of the group. */
  method PopGroup(q: Queue, last: Waiting) returns (rest: Queue, released: seq<nat>)
    requires last in q && forall i, j :: 0 <= i < j < |q| ==> q[i].id != q[j].id
    ensures exists n: nat :: 0 < n <= |q| && q[n - 1] == last && Pops(q, rest, released, n)
  {
    rest, released := q, [];
    ghost var n: nat := 0;
    while true
      invariant n < |q| && last in q[n..] && rest == q[n..] && released == seq(n, i requires 0 <= i < n => q[i].id)
      decreases |rest|
    {
      var ready := rest[0];
      rest := rest[1..];
      released := released + [ready.id];
      n := n + 1;
      if ready == last {
        break;
      }
    }
    assert q[n - 1] == last && Pops(q, rest, released, n);
  }

  lemma {:induction false} LastIsLast(q: Queue, n: nat, m: nat)
    requires 0 < n <= |q| && 0 < m <= |q| && q[n - 1] == q[m - 1] &&
             forall i, j :: 0 <= i < j < |q| ==> q[i].id != q[j].id
    ensures n == m
  {
  }

  // ----- the protocol -----

  /** How far the leader has got with the first `n` writers of the queue. The lock is not
      held between these points. */
  datatype Phase = Quiet | Grouped(n: nat) | Logged(n: nat) | Inserted(n: nat)

  /** `arrived` is every writer there ever was, `groups` those let go, as they were
      grouped. */
  datatype State = State(queue: Queue, phase: Phase, last: nat, log: seq<Bytes>, mem: seq<Numbered>, arrived: Queue,
                         groups: seq<Queue>)

  datatype Step = Arrive(w: Waiting) | Lead(n: nat) | LeadNull | AddRecord | Insert | Publish

  ghost predicate Init(s: State) { s == State([], Quiet, 0, [], [], [], []) }

  function Ops(s: State): seq<Op> {
    if s.phase.Quiet? || s.phase.n > |s.queue| then [] else AllOps(s.queue[..s.phase.n])
  }

  ghost predicate Next(s: State, a: Step, s': State) {
    match a
    case Arrive(w) =>
      && w.id == |s.arrived| && BatchFits(w.batch)
      && s' == s.(queue := s.queue + [w], arrived := s.arrived + [w])
    case Lead(n) =>
      && s.phase.Quiet? && IsGroup(s.queue, n)
      && s.last + |AllOps(s.queue[..n])| < KMaxSequenceNumber
      && s' == s.(phase := Grouped(n))
    case LeadNull =>
      && s.phase.Quiet? && s.queue != [] && s.queue[0].batch.Null?
      && s' == s.(queue := s.queue[1..], groups := s.groups + [s.queue[..1]])
    case AddRecord =>
      && s.phase.Grouped? && s.last + 1 < TWO_64 && |Ops(s)| < TWO_32
      && s' == s.(phase := Logged(s.phase.n), log := s.log + [BatchBytes(s.last + 1, Ops(s))])
    case Insert =>
      && s.phase.Logged?
      && s' == s.(phase := Inserted(s.phase.n), mem := s.mem + Number(s.last + 1, Ops(s)))
    case Publish =>
      && s.phase.Inserted? && s.phase.n <= |s.queue|
      && s' == s.(phase := Quiet, last := s.last + |Ops(s)|, queue := s.queue[s.phase.n..],
                  groups := s.groups + [s.queue[..s.phase.n]])
  }

  // ----- the history -----

  function Joined(groups: seq<Queue>): Queue {
    if groups == [] then [] else Joined(groups[..|groups| - 1]) + groups[|groups| - 1]
  }

  /** The log record of a group whose first operation gets number `first`. */
  function RecordOf(first: nat, g: Queue): seq<Bytes> {
    if g == [] || g[0].batch.Null? || first >= TWO_64 || |AllOps(g)| >= TWO_32 then []
      else [BatchBytes(first, AllOps(g))]
  }

  function Records(groups: seq<Queue>): seq<Bytes> {
    if groups == [] then []
    else
      var init := groups[..|groups| - 1];
      Records(init) + RecordOf(1 + |AllOps(Joined(init))|, groups[|groups| - 1])
  }

  /** A group has a batch to start with, or is a lone request for compaction; its
      operations fit one record; and no writer that asked for a sync is served by a
      leader that did not. */
  predicate GroupOk(g: Queue) {
    && g != [] && OpsFit(AllOps(g)) && (g[0].batch.Null? ==> |g| == 1)
    && forall i :: 0 <= i < |g| && g[i].sync ==> g[0].sync
  }

  predicate GroupsOk(groups: seq<Queue>) { forall i :: 0 <= i < |groups| ==> GroupOk(groups[i]) }

  predicate InOrder(arrived: Queue) { forall i :: 0 <= i < |arrived| ==> arrived[i].id == i }

  predicate PhaseOk(s: State) {
    s.phase.Quiet? || (1 <= s.phase.n <= |s.queue| && s.queue[0].batch.Filled? && GroupOk(s.queue[..s.phase.n])
                       && s.last + |Ops(s)| < KMaxSequenceNumber)
  }

  predicate Inv(s: State) {
    && s.arrived == Joined(s.groups) + s.queue && InOrder(s.arrived) && QueueFits(s.queue)
    && GroupsOk(s.groups) && PhaseOk(s)
    && s.last == |AllOps(Joined(s.groups))| && s.last < KMaxSequenceNumber
    && s.log == Records(s.groups) +
       (if s.phase.Logged? || s.phase.Inserted? then RecordOf(s.last + 1, s.queue[..s.phase.n]) else [])
    && s.mem == Number(1, AllOps(Joined(s.groups))) + (if s.phase.Inserted? then Number(s.last + 1, Ops(s)) else [])
  }

  lemma {:induction false} JoinedSnoc(groups: seq<Queue>, g: Queue)
    ensures Joined(groups + [g]) == Joined(groups) + g
    ensures Records(groups + [g]) == Records(groups) + RecordOf(1 + |AllOps(Joined(groups))|, g)
  {
    assert (groups + [g])[..|groups|] == groups;
  }

  lemma {:induction false} GroupsSnoc(groups: seq<Queue>, g: Queue)
    requires GroupsOk(groups) && GroupOk(g)
    ensures GroupsOk(groups + [g])
  {
  }

  lemma {:induction false} ArriveKeeps(s: State, w: Waiting, s': State)
    requires Inv(s) && Next(s, Arrive(w), s')
    ensures Inv(s')
  {
    hide AllOps, Records, Joined, GroupOk, RecordOf, Number, BatchFits;
    assert Joined(s.groups) + s.queue + [w] == Joined(s.groups) + (s.queue + [w]);
    if !s.phase.Quiet? { assert s'.queue[..s.phase.n] == s.queue[..s.phase.n]; }
    assert Ops(s') == Ops(s);
  }

  /** The group fits one record, and its sync writers have a sync leader. */
  lemma {:induction false} GroupIsOk(q: Queue, n: nat)
    requires QueueFits(q) && IsGroup(q, n)
    ensures GroupOk(q[..n])
  {
    var g := q[..n];
    GroupFits(q, n, n);
    forall i | 0 <= i < |g| && g[i].sync ensures g[0].sync {
      if i > 0 { assert Joins(q[0], GroupSize(q, i), MaxSize(GroupSize(q, 1)), q[i]); }
    }
  }

  lemma {:induction false} GroupFirst(q: Queue, n: nat)
    requires IsGroup(q, n)
    ensures 1 <= n <= |q| && q[0].batch.Filled?
  {
  }

  lemma {:induction false} GroupJoins(q: Queue, n: nat, i: nat)
    requires IsGroup(q, n) && 1 <= i < n
    ensures i < |q| && Joins(q[0], GroupSize(q, i), MaxSize(GroupSize(q, 1)), q[i])
  {
  }

  lemma {:induction false} FitsNext(q: Queue, k: nat)
    requires QueueFits(q) && 1 <= k < |q| && OpsFit(AllOps(q[..k])) &&
             Joins(q[0], GroupSize(q, k), MaxSize(GroupSize(q, 1)), q[k])
    ensures OpsFit(AllOps(q[..k + 1]))
  {
    hide *;
    AllOpsNext(q, k);
    if q[k].batch.Filled? {
      JoinedFits(q, k);
      OpsOfFilled(q[k].batch);
    } else {
      NullAdds(q, k);
    }
  }

  lemma {:induction false} OpsOfFilled(b: Batch)
    requires b.Filled?
    ensures OpsOf(b) == b.ops
  {
  }

  lemma {:induction false} GroupFits(q: Queue, n: nat, m: nat)
    requires QueueFits(q) && IsGroup(q, n) && 1 <= m <= n
    ensures m <= |q| && OpsFit(AllOps(q[..m]))
  {
    hide *;
    GroupFirst(q, n);
    if m == 1 {
      FirstAlone(q);
    } else {
      var k := m - 1;
      GroupFits(q, n, k);
      GroupJoins(q, n, k);
      FitsNext(q, k);
      assert k + 1 == m;
    }
  }

  lemma {:induction false} LeadKeeps(s: State, n: nat, s': State)
    requires Inv(s) && Next(s, Lead(n), s')
    ensures Inv(s')
  {
    hide AllOps, Records, Joined, GroupOk, RecordOf, Number;
    GroupIsOk(s.queue, n);
  }

  lemma {:induction false} NullKeeps(s: State, s': State)
    requires Inv(s) && Next(s, LeadNull, s')
    ensures Inv(s')
  {
    var g := s.queue[..1];
    assert AllOps(g) == [] by { assert g[..0] == []; }
    assert GroupOk(g) && RecordOf(s.last + 1, g) == [];
    LetGo(s, 1, s');
  }

  /** A group leaves the front of the queue. */
  lemma {:induction false} LetGo(s: State, n: nat, s': State)
    requires Inv(s) && n <= |s.queue| && GroupOk(s.queue[..n]) && s.last + |AllOps(s.queue[..n])| < KMaxSequenceNumber
    requires s'.queue == s.queue[n..] && s'.groups == s.groups + [s.queue[..n]] && s'.arrived == s.arrived &&
             s'.phase.Quiet?
    requires s'.last == s.last + |AllOps(s.queue[..n])|
    requires s'.log == Records(s.groups) + RecordOf(s.last + 1, s.queue[..n])
    requires s'.mem == Number(1, AllOps(Joined(s.groups))) + Number(s.last + 1, AllOps(s.queue[..n]))
    ensures Inv(s')
  {
    hide AllOps, Records, Joined, GroupOk, RecordOf, Number, BatchFits, GroupsOk;
    var g := s.queue[..n];
    JoinedSnoc(s.groups, g);
    GroupsSnoc(s.groups, g);
    AllOpsConcat(Joined(s.groups), g);
    NumberConcat(1, AllOps(Joined(s.groups)), AllOps(g));
    assert s.queue == g + s.queue[n..];
    Regroup(Joined(s.groups), g, s.queue[n..]);
  }

  lemma {:induction false} AddRecordKeeps(s: State, s': State)
    requires Inv(s) && Next(s, AddRecord, s')
    ensures Inv(s')
  {
    hide AllOps, Records, Joined, GroupOk, Number, BatchFits, GroupsOk, BatchBytes;
    assert s.queue[..s.phase.n][0] == s.queue[0];
  }

  lemma {:induction false} InsertKeeps(s: State, s': State)
    requires Inv(s) && Next(s, Insert, s')
    ensures Inv(s')
  {
    hide AllOps, Records, Joined, GroupOk, RecordOf, Number, BatchFits, GroupsOk;
    assert Ops(s') == Ops(s);
  }

  lemma {:induction false} PublishKeeps(s: State, s': State)
    requires Inv(s) && Next(s, Publish, s')
    ensures Inv(s')
  {
    hide AllOps, Records, Joined, GroupOk, RecordOf, Number, BatchFits, GroupsOk;
    LetGo(s, s.phase.n, s');
  }

  lemma {:induction false} NextKeeps(s: State, a: Step, s': State)
    requires Inv(s) && Next(s, a, s')
    ensures Inv(s')
  {
    hide Inv, Next;
    match a
    case Arrive(w) => ArriveKeeps(s, w, s');
    case Lead(n) => LeadKeeps(s, n, s');
    case LeadNull => NullKeeps(s, s');
    case AddRecord => AddRecordKeeps(s, s');
    case Insert => InsertKeeps(s, s');
    case Publish => PublishKeeps(s, s');
  }

  ghost predicate IsRun(states: seq<State>, steps: seq<Step>) {
    && |states| == |steps| + 1 && Init(states[0])
    && forall i :: 0 <= i < |steps| ==> Next(states[i], steps[i], states[i + 1])
  }

  lemma {:induction false} RunInv(states: seq<State>, steps: seq<Step>, n: nat)
    requires IsRun(states, steps) && n < |states|
    ensures Inv(states[n])
  {
    if n == 0 {
      assert Number(1, []) == [];
    } else {
      hide Inv, Next;
      RunInv(states, steps, n - 1);
      NextKeeps(states[n - 1], steps[n - 1], states[n]);
    }
  }

  /** The writers let go so far are the first to arrive. */
  function Gone(s: State): Queue { Joined(s.groups) }

  /** In every run, whenever no leader is at work: the memtable holds the operations of
      the writers let go, in the order they arrived, each once and numbered from 1 on
      without gaps; and every writer that arrived is let go or still waits. */
  lemma {:induction false} FirstComeFirstServed(states: seq<State>, steps: seq<Step>, n: nat)
    requires IsRun(states, steps) && n < |states| && states[n].phase.Quiet?
    ensures var s := states[n];
            && s.arrived == Gone(s) + s.queue && InOrder(s.arrived)
            && s.mem == Number(1, AllOps(Gone(s))) && s.last == |s.mem|
            && s.log == Records(s.groups) && GroupsOk(s.groups)
  {
    RunInv(states, steps, n);
    hide Number, AllOps, Records, Joined, GroupsOk;
    assert states[n].mem == Number(1, AllOps(Joined(states[n].groups))) + [];
  }

  /** As long as somebody waits, the leader can move on, up to the end of the sequence
      numbers. */
  lemma {:induction false} NeverStuck(s: State)
    requires Inv(s) && s.queue != [] && s.last + |AllOps(s.queue)| < KMaxSequenceNumber
    ensures exists a: Step, s' :: !a.Arrive? && Next(s, a, s')
  {
    hide AllOps, Number, BatchBytes, IsGroup, Records, Joined, RecordOf, GroupsOk, QueueFits;
    if s.phase.Quiet? {
      if s.queue[0].batch.Null? {
        assert Next(s, LeadNull, s.(queue := s.queue[1..], groups := s.groups + [s.queue[..1]]));
      } else {
        var n := GroupExists(s.queue, 1);
        GroupFirst(s.queue, n);
        assert s.queue == s.queue[..n] + s.queue[n..];
        AllOpsConcat(s.queue[..n], s.queue[n..]);
        assert Next(s, Lead(n), s.(phase := Grouped(n)));
      }
    } else if s.phase.Grouped? {
      assert Next(s, AddRecord, s.(phase := Logged(s.phase.n), log := s.log + [BatchBytes(s.last + 1, Ops(s))]));
    } else if s.phase.Logged? {
      assert Next(s, Insert, s.(phase := Inserted(s.phase.n), mem := s.mem + Number(s.last + 1, Ops(s))));
    } else {
      assert Next(s, Publish, s.(phase := Quiet, last := s.last + |Ops(s)|, queue := s.queue[s.phase.n..],
                                 groups := s.groups + [s.queue[..s.phase.n]]));
    }
  }

  lemma {:induction false} GroupExists(q: Queue, m: nat) returns (n: nat)
    requires 1 <= m <= |q| && q[0].batch.Filled?
    requires forall i :: 1 <= i < m ==> Joins(q[0], GroupSize(q, i), MaxSize(GroupSize(q, 1)), q[i])
    ensures IsGroup(q, n)
    decreases |q| - m
  {
    hide GroupSize, MaxSize, Joins;
    if m < |q| && Joins(q[0], GroupSize(q, m), MaxSize(GroupSize(q, 1)), q[m]) {
      n := GroupExists(q, m + 1);
    } else {
      n := m;
    }
  }

  /** The steps of a leader with a batch, from start to end. */
  ghost predicate Served(s: State, n: nat, s': State) {
    exists a, b, c :: Next(s, Lead(n), a) && Next(a, AddRecord, b) && Next(b, Insert, c) && Next(c, Publish, s')
  }

  /** DBImpl::Write from the moment its writer is at the front, if nobody joins the queue
      meanwhile: the steps of the protocol, one after the other, and each writer of the
      group is let go. */
  method WriteAtFront(s: State) returns (s': State, released: seq<nat>)
    requires Inv(s) && s.phase.Quiet? && s.queue != [] && s.last + |AllOps(s.queue)| < KMaxSequenceNumber
    ensures Inv(s')
    ensures s.queue[0].batch.Null? ==> Next(s, LeadNull, s') && released == [s.queue[0].id]
    ensures s.queue[0].batch.Filled? ==>
              exists n: nat ::
                Served(s, n, s') && n <= |s.queue| && released == seq(n, i requires 0 <= i < n => s.queue[i].id)
  {
    if s.queue[0].batch.Null? {
      s', released := PopFront(s);
    } else {
      ghost var n;
      s', released, n := ServeGroup(s);
    }
  }

  method PopFront(s: State) returns (s': State, released: seq<nat>)
    requires Inv(s) && s.phase.Quiet? && s.queue != [] && s.queue[0].batch.Null?
    ensures Inv(s') && Next(s, LeadNull, s') && released == [s.queue[0].id]
  {
    hide *;
    InvParts(s);
    var rest;
    rest, released := PopGroup(s.queue, s.queue[0]);
    s' := s.(queue := rest, groups := s.groups + [s.queue[..1]]);
    Popped(s.queue, rest, released, 1);
    assert released == [s.queue[0].id];
    NullStep(s, s');
    NextKeeps(s, LeadNull, s');
  }

  method ServeGroup(s: State) returns (s': State, released: seq<nat>, ghost served: nat)
    requires Inv(s) && s.phase.Quiet? && s.queue != [] && s.queue[0].batch.Filled? &&
             s.last + |AllOps(s.queue)| < KMaxSequenceNumber
    ensures Inv(s') && Served(s, served, s') && served <= |s.queue| &&
            released == seq(served, i requires 0 <= i < served => s.queue[i].id)
  {
    hide *;
    InvParts(s);
    var group, n := BuildBatchGroup(s.queue);
    served := n;
    GroupFirst(s.queue, n);
    GroupEnds(s, n);
    group.SetSequence(s.last + 1);
    group.OkParts();
    var log := s.log + [group.rep];
    BatchParts(s.last + 1, group.ops);
    var added, outcome := InsertInto(group.rep, s.last + 1, group.ops);
    var count := group.Count();
    var rest;
    rest, released := PopGroup(s.queue, s.queue[n - 1]);
    Popped(s.queue, rest, released, n);
    s' := State(rest, Quiet, s.last + count, log, s.mem + added, s.arrived, s.groups + [s.queue[..n]]);
    ServedSteps(s, n, s');
  }

  ghost predicate Pops(q: Queue, rest: Queue, released: seq<nat>, n: nat) {
    n <= |q| && rest == q[n..] && released == seq(n, i requires 0 <= i < n => q[i].id)
  }

  lemma {:induction false} Popped(q: Queue, rest: Queue, released: seq<nat>, n: nat)
    requires 0 < n <= |q| && (forall i, j :: 0 <= i < j < |q| ==> q[i].id != q[j].id)
    requires exists m: nat :: 0 < m <= |q| && q[m - 1] == q[n - 1] && Pops(q, rest, released, m)
    ensures rest == q[n..] && released == seq(n, i requires 0 <= i < n => q[i].id)
  {
    var m: nat :| 0 < m <= |q| && q[m - 1] == q[n - 1] && Pops(q, rest, released, m);
    LastIsLast(q, m, n);
  }

  lemma {:induction false} InvParts(s: State)
    requires Inv(s)
    ensures QueueFits(s.queue) && forall i, j :: 0 <= i < j < |s.queue| ==> s.queue[i].id != s.queue[j].id
  {
    var p := |Joined(s.groups)|;
    forall i, j | 0 <= i < j < |s.queue| ensures s.queue[i].id != s.queue[j].id {
      assert s.arrived[p + i] == s.queue[i] && s.arrived[p + j] == s.queue[j];
    }
  }

  lemma {:induction false} NullStep(s: State, s': State)
    requires s.phase.Quiet? && s.queue != [] && s.queue[0].batch.Null?
    requires s' == s.(queue := s.queue[1..], groups := s.groups + [s.queue[..1]])
    ensures Next(s, LeadNull, s')
  {
  }

  lemma {:induction false} GroupEnds(s: State, n: nat)
    requires Inv(s) && IsGroup(s.queue, n) && s.last + |AllOps(s.queue)| < KMaxSequenceNumber
    ensures n <= |s.queue| && s.last + |AllOps(s.queue[..n])| < KMaxSequenceNumber && s.last + 1 < TWO_64 &&
            OpsFit(AllOps(s.queue[..n]))
  {
    hide AllOps, GroupOk;
    assert s.queue == s.queue[..n] + s.queue[n..];
    AllOpsConcat(s.queue[..n], s.queue[n..]);
    GroupFits(s.queue, n, n);
  }

  lemma {:induction false} ServedSteps(s: State, n: nat, s': State)
    requires Inv(s) && s.phase.Quiet? && IsGroup(s.queue, n) && s.last + 1 < TWO_64 && OpsFit(AllOps(s.queue[..n]))
    requires s.last + |AllOps(s.queue[..n])| < KMaxSequenceNumber
    requires var ops := AllOps(s.queue[..n]);
             s' == State(s.queue[n..], Quiet, s.last + |ops|, s.log + [BatchBytes(s.last + 1, ops)],
                         s.mem + Number(s.last + 1, ops),
                         s.arrived, s.groups + [s.queue[..n]])
    ensures Served(s, n, s') && Inv(s')
  {
    hide AllOps, Inv, IsGroup, Number, BatchBytes;
    GroupFirst(s.queue, n);
    var ops := AllOps(s.queue[..n]);
    var a := s.(phase := Grouped(n));
    var b := a.(phase := Logged(n), log := s.log + [BatchBytes(s.last + 1, ops)]);
    var c := b.(phase := Inserted(n), mem := s.mem + Number(s.last + 1, ops));
    assert Next(s, Lead(n), a) && Next(a, AddRecord, b) && Next(b, Insert, c) && Next(c, Publish, s');
    NextKeeps(s, Lead(n), a);
    NextKeeps(a, AddRecord, b);
    NextKeeps(b, Insert, c);
    NextKeeps(c, Publish, s');
  }
}

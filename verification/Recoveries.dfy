/** Recovery of the memtable from the log (db/db_impl.cc, RecoverLogFile): after a crash
    that cuts the log anywhere, whole groups come back, in order, and nothing else. */
module Recoveries {
  import opened Keys
  import opened Coding
  import opened WriteBatches
  import opened GroupCommits
  import Logs

  /** What a log record adds to the memtable. */
  function ReplayOne(record: Bytes): seq<Numbered> {
    if |record| < KHeader then [] else Number(DecodeFixed64(record), Parse(record[KHeader..]).ops)
  }

  function Replay(log: seq<Bytes>): seq<Numbered> {
    if log == [] then [] else Replay(log[..|log| - 1]) + ReplayOne(log[|log| - 1])
  }

  lemma {:induction false} ReplayConcat(log: seq<Bytes>, more: seq<Bytes>)
    requires |more| <= 1
    ensures Replay(log + more) == Replay(log) + (if more == [] then [] else ReplayOne(more[0]))
  {
    if more == [] {
      assert log + more == log;
    } else {
      assert (log + more)[..|log|] == log;
    }
  }

  lemma {:induction false} ReplayGroup(first: nat, g: Queue)
    requires GroupOk(g) && first < TWO_64
    ensures (if RecordOf(first, g) == [] then [] else ReplayOne(RecordOf(first, g)[0])) == Number(first, AllOps(g))
  {
    if g[0].batch.Null? {
      assert g[..0] == [];
      assert AllOps(g) == [];
    } else {
      var ops := AllOps(g);
      hide BatchBytes, Parse, DecodeFixed64, DecodeFixed32, AllOps;
      BatchParts(first, ops);
      OpsRoundTrip(ops);
    }
  }

  /** Replaying the records of some groups gives their operations, numbered as they were
      when they were written. */
  lemma {:induction false} ReplayRecords(groups: seq<Queue>)
    requires GroupsOk(groups) && |AllOps(Joined(groups))| < KMaxSequenceNumber
    ensures Replay(Records(groups)) == Number(1, AllOps(Joined(groups)))
  {
    hide AllOps, Joined, Records, RecordOf, Replay, ReplayOne, Number, GroupOk;
    if groups == [] {
      NoGroups();
    } else {
      var init, g := groups[..|groups| - 1], groups[|groups| - 1];
      assert groups == init + [g];
      JoinedSnoc(init, g);
      AllOpsConcat(Joined(init), g);
      assert GroupOk(groups[|groups| - 1]);
      PrefixOk(groups, |groups| - 1);
      ReplayRecords(init);
      var first := 1 + |AllOps(Joined(init))|;
      ReplayGroup(first, g);
      AtMostOne(first, g);
      ReplayConcat(Records(init), RecordOf(first, g));
      NumberConcat(1, AllOps(Joined(init)), AllOps(g));
    }
  }

  lemma {:induction false} NoGroups()
    ensures Replay(Records([])) == Number(1, AllOps(Joined([]))) == []
  {
  }

  lemma {:induction false} AtMostOne(first: nat, g: Queue)
    ensures |RecordOf(first, g)| <= 1
  {
  }

  lemma {:induction false} SomeRecord(groups: seq<Queue>)
    requires |Records(groups)| > 0
    ensures groups != []
  {
  }

  /** The first records of a log are the records of the first groups. */
  lemma {:induction false} PrefixOfRecords(groups: seq<Queue>, k: nat) returns (m: nat)
    requires k <= |Records(groups)|
    ensures m <= |groups| && Records(groups[..m]) == Records(groups)[..k]
  {
    hide AllOps, Joined, RecordOf, Records;
    if k == |Records(groups)| {
      m := |groups|;
      assert groups[..m] == groups && Records(groups)[..k] == Records(groups);
    } else {
      SomeRecord(groups);
      var init, g := groups[..|groups| - 1], groups[|groups| - 1];
      assert groups == init + [g];
      var first := 1 + |AllOps(Joined(init))|;
      AtMostOne(first, g);
      JoinedSnoc(init, g);
      m := PrefixOfRecords(init, k);
      assert init[..m] == groups[..m];
    }
  }

  lemma {:induction false} PrefixOk(groups: seq<Queue>, m: nat)
    requires GroupsOk(groups) && m <= |groups|
    ensures GroupsOk(groups[..m]) && |AllOps(Joined(groups[..m]))| <= |AllOps(Joined(groups))|
    decreases |groups|
  {
    if m < |groups| {
      var init, g := groups[..|groups| - 1], groups[|groups| - 1];
      assert groups == init + [g] && init[..m] == groups[..m];
      PrefixOk(init, m);
      JoinedSnoc(init, g);
      AllOpsConcat(Joined(init), g);
    } else {
      assert groups[..m] == groups;
    }
  }

  /** The groups whose record is in the log. */
  function LoggedGroups(s: State): seq<Queue> {
    if (s.phase.Logged? || s.phase.Inserted?) && s.phase.n <= |s.queue| then s.groups + [s.queue[..s.phase.n]]
      else s.groups
  }

  lemma {:induction false} LogIsRecords(s: State)
    requires Inv(s)
    ensures s.log == Records(LoggedGroups(s)) && GroupsOk(LoggedGroups(s)) &&
            |AllOps(Joined(LoggedGroups(s)))| < KMaxSequenceNumber
  {
    hide AllOps, Joined, Records, RecordOf, Number, GroupOk;
    if s.phase.Logged? || s.phase.Inserted? {
      var g := s.queue[..s.phase.n];
      JoinedSnoc(s.groups, g);
      AllOpsConcat(Joined(s.groups), g);
      GroupsSnoc(s.groups, g);
    }
  }

  lemma {:induction false} RecordAt(groups: seq<Queue>, i: nat) returns (m: nat)
    requires GroupsOk(groups) && |AllOps(Joined(groups))| < KMaxSequenceNumber && i < |Records(groups)|
    ensures m < |groups| && Records(groups[..m]) == Records(groups)[..i] && OpsFit(AllOps(groups[m]))
    ensures 1 + |AllOps(Joined(groups[..m]))| < TWO_64
    ensures Records(groups)[i] == BatchBytes(1 + |AllOps(Joined(groups[..m]))|, AllOps(groups[m]))
  {
    hide AllOps, Joined, BatchBytes;
    var n := |groups| - 1;
    var init, g := groups[..n], groups[n];
    var first := 1 + |AllOps(Joined(init))|;
    assert groups == init + [g];
    PrefixOk(groups, n);
    assert Records(groups) == Records(init) + RecordOf(first, g);
    if i < |Records(init)| {
      m := RecordAt(init, i);
      assert init[..m] == groups[..m];
    } else {
      AtMostOne(first, g);
      m := n;
      assert Records(groups)[..i] == Records(init);
    }
  }

  /** One record more: the next numbers, and as many as the header says. */
  lemma {:induction false} ReplayStep(groups: seq<Queue>, i: nat, mem: seq<Numbered>, r: Bytes)
    requires GroupsOk(groups) && |AllOps(Joined(groups))| < KMaxSequenceNumber && i < |Records(groups)|
    requires mem == Replay(Records(groups)[..i]) && r == Records(groups)[i]
    ensures |r| >= KHeader && DecodeFixed64(r) == |mem| + 1 && DecodeFixed32(r[8..]) == |Parse(r[KHeader..]).ops|
    ensures Replay(Records(groups)[..i + 1]) == mem + Number(DecodeFixed64(r), Parse(r[KHeader..]).ops)
  {
    hide AllOps, Joined, BatchBytes, Parse, DecodeFixed64, DecodeFixed32, Records, Number;
    var m := RecordAt(groups, i);
    PrefixOk(groups, m);
    ReplayRecords(groups[..m]);
    var ops := AllOps(groups[m]);
    BatchParts(1 + |AllOps(Joined(groups[..m]))|, ops);
    OpsRoundTrip(ops);
    assert Records(groups)[..i + 1][..i] == Records(groups)[..i];
  }

  /** What the reader gives back of a cut log are the records of the first groups. */
  lemma {:induction false} WholeGroups(groups: seq<Queue>, t: nat) returns (m: nat)
    requires GroupsOk(groups)
    ensures m <= |groups| && Logs.Whole(0, Records(groups), t) == Records(groups[..m])
  {
    hide Records;
    Logs.WholePrefix(0, Records(groups), t);
    m := PrefixOfRecords(groups, |Logs.Whole(0, Records(groups), t)|);
  }

  lemma {:induction false} HeaderIs()
    ensures KHeader == 12
  {
  }

  lemma {:induction false} ReplayNone()
    ensures Replay([]) == []
  {
  }

  /** Reads back a log file: what goes into the memtable, and the highest number seen. Of
      a cut log these are the operations of the groups whose record lies wholly before
      the cut. */
  method RecoverLogFile(step: CrcStep, file: Bytes, ghost groups: seq<Queue>) returns (mem: seq<Numbered>,
                        maxSequence: int, ghost m: nat)
    requires GroupsOk(groups) && |AllOps(Joined(groups))| < KMaxSequenceNumber
    ensures file <= Logs.Stream(step, 0, Records(groups)) ==>
              && m <= |groups| && Records(groups[..m]) == Logs.Whole(0, Records(groups), |file|)
              && mem == Number(1, AllOps(Joined(groups[..m]))) && maxSequence == |mem|
              && (|file| == |Logs.Stream(step, 0, Records(groups))| ==> mem == Number(1, AllOps(Joined(groups))))
  {
    hide *;
    var records, corruptions := Logs.ReadAll(step, file, Records(groups));
    ghost var good := file <= Logs.Stream(step, 0, Records(groups));
    m := 0;
    if good {
      m := WholeGroups(groups, |file|);
      PrefixOk(groups, m);
    }
    ghost var whole := groups[..m];
    HeaderIs();
    mem, maxSequence := [], 0;
    ReplayNone();
    for i := 0 to |records|
      invariant good ==> mem == Replay(records[..i]) && maxSequence == |mem|
    {
      var r := records[i];
      if good { ReplayStep(whole, i, mem, r); }
      if |r| >= 12 {
        var first, count := DecodeFixed64(r), DecodeFixed32(r[8..]);
        var ops, outcome := Iterate(r);
        mem := mem + Number(first, ops);
        if first + count - 1 > maxSequence {
          maxSequence := first + count - 1;
        }
      }
    }
    if good {
      assert records[..|records|] == records;
      ReplayRecords(whole);
      if |file| == |Logs.Stream(step, 0, Records(groups))| {
        Logs.WholeLog(step, 0, Records(groups));
        ReplayRecords(groups);
      }
    }
  }

  /** A crash at any moment of any run, with the log cut anywhere: what comes back is
      what the first groups wrote, whole and in order; with nothing cut, all that had
      been logged. */
  method RecoverAfterCrash(step: CrcStep, file: Bytes, ghost states: seq<State>, ghost steps: seq<Step>)
    returns (mem: seq<Numbered>, maxSequence: int, ghost m: nat)
    requires IsRun(states, steps)
    ensures var s := states[|steps|];
            var groups := LoggedGroups(s);
            file <= Logs.Stream(step, 0, s.log) ==>
              && m <= |groups| && Records(groups[..m]) == Logs.Whole(0, s.log, |file|)
              && mem == Number(1, AllOps(Joined(groups[..m]))) && maxSequence == |mem|
              && (|file| == |Logs.Stream(step, 0, s.log)| ==> mem == Number(1, AllOps(Joined(groups))))
  {
    hide *;
    RunSize(states, steps);
    RunInv(states, steps, |steps|);
    LogIsRecords(states[|steps|]);
    mem, maxSequence, m := RecoverLogFile(step, file, LoggedGroups(states[|steps|]));
  }

  lemma {:induction false} RunSize(states: seq<State>, steps: seq<Step>)
    requires IsRun(states, steps)
    ensures |states| == |steps| + 1
  {
  }
}

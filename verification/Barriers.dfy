/** The spin barrier of Metis (lib/psrs.hh, cpu_barrier): one main thread and any
    number of workers, each load and store one atomic step, for any number of rounds. */
module Barriers {
  datatype Status = Stop | Start

  /** Where a worker is: outside, or about to take the named step. The two waits are
      loads that spin until they see the value they wait for. */
  datatype Worker = Away | AwaitStart | SetReady | AwaitStop | ClearReady

  /** Where the main thread is; the waits go through the workers one by one. */
  datatype Main = Outside | SetStart | AwaitReady(i: nat) | SetStop | AwaitClear(i: nat)

  /** The shared flags, the program counters, and how often each thread has entered and
      left the barrier. Every thread enters `rounds` times. */
  datatype State = State(rounds: nat, status: Status, ready: seq<bool>, main: Main, workers: seq<Worker>,
                         mainEntered: nat, mainLeft: nat, entered: seq<nat>, left: seq<nat>)

  predicate Shape(s: State) {
    |s.ready| == |s.workers| == |s.entered| == |s.left|
  }

  predicate Init(s: State) {
    && Shape(s) && s.status == Stop && s.main == Outside && s.mainEntered == 0 && s.mainLeft == 0
    && forall i :: 0 <= i < |s.workers| ==> !s.ready[i] && s.workers[i] == Away && s.entered[i] == 0 && s.left[i] == 0
  }

  datatype Step = MainStep | WorkerStep(i: nat)

  /** The main thread's next state of mind once it has seen `i` of `n` ready flags. */
  function Readying(i: nat, n: nat): Main { if i < n then AwaitReady(i) else SetStop }

  /** One step of the main thread; a failed test of a flag changes nothing. */
  function MainMoves(s: State): State
    requires Shape(s)
  {
    var n := |s.workers|;
    match s.main
    case Outside => if s.mainEntered < s.rounds then s.(main := SetStart, mainEntered := s.mainEntered + 1) else s
    case SetStart => s.(status := Start, main := Readying(0, n))
    case AwaitReady(i) => if i < n && s.ready[i] then s.(main := Readying(i + 1, n)) else s
    case SetStop => Clearing(s.(status := Stop), 0)
    case AwaitClear(i) => if i < n && !s.ready[i] then Clearing(s, i + 1) else s
  }

  /** Having seen `i` cleared flags, the main thread waits for the next or leaves. */
  function Clearing(s: State, i: nat): State {
    if i < |s.workers| then s.(main := AwaitClear(i)) else s.(main := Outside, mainLeft := s.mainLeft + 1)
  }

  /** One step of worker `i`. */
  function WorkerMoves(s: State, i: nat): State
    requires Shape(s) && i < |s.workers|
  {
    match s.workers[i]
    case Away => if s.entered[i] < s.rounds
      then s.(workers := s.workers[i := AwaitStart], entered := s.entered[i := s.entered[i] + 1]) else s
    case AwaitStart => if s.status == Start then s.(workers := s.workers[i := SetReady]) else s
    case SetReady => s.(workers := s.workers[i := AwaitStop], ready := s.ready[i := true])
    case AwaitStop => if s.status == Stop then s.(workers := s.workers[i := ClearReady]) else s
    case ClearReady => s.(workers := s.workers[i := Away], ready := s.ready[i := false],
                          left := s.left[i := s.left[i] + 1])
  }

  predicate Legal(s: State, step: Step) {
    Shape(s) && (step.WorkerStep? ==> step.i < |s.workers|)
  }

  function Do(s: State, step: Step): State
    requires Legal(s, step)
  {
    match step
    case MainStep => MainMoves(s)
    case WorkerStep(i) => WorkerMoves(s, i)
  }

  predicate Run(states: seq<State>, steps: seq<Step>) {
    && |states| == |steps| + 1 && Init(states[0])
    && forall t :: 0 <= t < |steps| ==> Legal(states[t], steps[t]) && states[t + 1] == Do(states[t], steps[t])
  }

  // ----- the invariant -----

  /** How often the main thread has stored START, and STOP. */
  function Starts(s: State): int {
    s.mainEntered - if s.main.SetStart? then 1 else 0
  }

  function Stops(s: State): int {
    Starts(s) - if s.main.AwaitReady? || s.main.SetStop? then 1 else 0
  }

  /** How often worker `i` has set its flag. */
  function Sets(s: State, i: nat): int
    requires Shape(s) && i < |s.workers|
  {
    s.entered[i] as int - if s.workers[i].AwaitStart? || s.workers[i].SetReady? then 1 else 0
  }

  predicate MainOk(s: State) {
    && s.mainLeft == s.mainEntered - (if s.main.Outside? then 0 else 1)
    && s.mainEntered <= s.rounds
    && (s.status == Start <==> s.main.AwaitReady? || s.main.SetStop?)
    && (s.main.AwaitReady? || s.main.AwaitClear? ==> s.main.i < |s.workers|)
  }

  predicate WorkerOk(s: State, i: nat)
    requires Shape(s) && i < |s.workers|
  {
    && s.entered[i] == s.left[i] + (if s.workers[i].Away? then 0 else 1)
    && s.entered[i] <= s.rounds
    && (s.ready[i] <==> s.workers[i].AwaitStop? || s.workers[i].ClearReady?)
    && (s.workers[i].SetReady? ==> s.status == Start)
    && (s.workers[i].ClearReady? ==> s.status == Stop)
    && Stops(s) <= Sets(s, i) <= Starts(s)
    && Starts(s) - 1 <= s.left[i] <= Stops(s)
    // what the main thread has seen
    && (s.main.SetStop? || (s.main.AwaitReady? && i < s.main.i) ==> Sets(s, i) == Starts(s))
    && (s.main.Outside? || s.main.SetStart? || (s.main.AwaitClear? && i < s.main.i) ==> s.left[i] == Stops(s))
  }

  predicate Inv(s: State) {
    Shape(s) && MainOk(s) && forall i :: 0 <= i < |s.workers| ==> WorkerOk(s, i)
  }

  lemma {:induction false} StepKeeps(s: State, step: Step)
    requires Inv(s) && Legal(s, step)
    ensures Inv(Do(s, step)) && Do(s, step).rounds == s.rounds && |Do(s, step).workers| == |s.workers|
  {
    if step.MainStep? { MainKeeps(s); } else { WorkerKeeps(s, step.i); }
  }

  lemma {:induction false} MainKeeps(s: State)
    requires Inv(s)
    ensures Inv(MainMoves(s))
  {
    var s' := MainMoves(s);
    forall j | 0 <= j < |s'.workers| ensures WorkerOk(s', j) {
      assert WorkerOk(s, j);
    }
  }

  lemma {:induction false} WorkerKeeps(s: State, i: nat)
    requires Inv(s) && i < |s.workers|
    ensures Inv(WorkerMoves(s, i))
  {
    var s' := WorkerMoves(s, i);
    forall j | 0 <= j < |s'.workers| ensures WorkerOk(s', j) {
      assert WorkerOk(s, i) && WorkerOk(s, j);
    }
  }

  lemma {:induction false} RunInv(states: seq<State>, steps: seq<Step>, t: nat)
    requires Run(states, steps) && t < |states|
    ensures Inv(states[t]) && states[t].rounds == states[0].rounds && |states[t].workers| == |states[0].workers|
  {
    if t > 0 {
      RunInv(states, steps, t - 1);
      StepKeeps(states[t - 1], steps[t - 1]);
    }
  }

  // ----- what the barrier is for -----

  /** No thread leaves a round before every thread has entered it. */
  lemma {:induction false} NobodyLeavesEarly(states: seq<State>, steps: seq<Step>, t: nat, i: nat, j: nat)
    requires Run(states, steps) && t < |states| && i < |states[0].workers| && j < |states[0].workers|
    ensures Shape(states[t]) && i < |states[t].workers| && j < |states[t].workers|
    ensures states[t].left[i] <= states[t].entered[j]
    ensures states[t].left[i] <= states[t].mainEntered
    ensures states[t].mainLeft <= states[t].entered[j]
  {
    RunInv(states, steps, t);
    assert WorkerOk(states[t], i) && WorkerOk(states[t], j);
  }

  /** A wait ends only on a flag of the round the waiting thread is in. */
  lemma {:induction false} NoStaleFlag(states: seq<State>, steps: seq<Step>, t: nat, i: nat)
    requires Run(states, steps) && t < |states| && i < |states[0].workers|
    ensures Shape(states[t]) && i < |states[t].workers|
    ensures states[t].main == AwaitReady(i) && states[t].ready[i] ==>
              states[t].entered[i] == states[t].mainEntered && states[t].left[i] + 1 == states[t].mainEntered
    ensures states[t].main == AwaitClear(i) && !states[t].ready[i] ==> states[t].left[i] == states[t].mainEntered
    ensures states[t].workers[i] == AwaitStart && states[t].status == Start ==>
              states[t].mainEntered == states[t].entered[i] && states[t].mainLeft + 1 == states[t].entered[i]
    ensures states[t].workers[i] == AwaitStop && states[t].status == Stop ==>
              states[t].mainEntered == states[t].entered[i] && states[t].mainLeft + 1 == states[t].entered[i]
  {
    RunInv(states, steps, t);
    assert WorkerOk(states[t], i);
  }

  // ----- progress -----

  predicate Finished(s: State) {
    s.mainLeft == s.rounds && forall i :: 0 <= i < |s.left| ==> s.left[i] == s.rounds
  }

  /** Until every thread is through all its rounds, some thread can take a step that is
      not a failed test. */
  lemma {:induction false} NeverStuck(s: State) returns (step: Step)
    requires Inv(s) && !Finished(s)
    ensures Legal(s, step) && Do(s, step) != s
  {
    step := MainStep;
    if i :| 0 <= i < |s.workers| && CanMove(s, i) {
      return WorkerStep(i);
    } else {
      forall i | 0 <= i < |s.workers| ensures !CanMove(s, i) && WorkerOk(s, i) {
      }
      if s.main.AwaitReady? || s.main.AwaitClear? {
        assert WorkerOk(s, s.main.i) && !CanMove(s, s.main.i);
      } else {
        forall i | 0 <= i < |s.left| ensures s.main.Outside? && s.mainEntered == s.rounds ==> s.left[i] == s.rounds {
          assert WorkerOk(s, i) && !CanMove(s, i);
        }
      }
    }
  }

  predicate CanMove(s: State, i: nat)
    requires Shape(s) && i < |s.workers|
  {
    match s.workers[i]
    case Away => s.entered[i] < s.rounds
    case AwaitStart => s.status == Start
    case AwaitStop => s.status == Stop
    case _ => true
  }

  /** Steps the main thread still has to take. */
  function MainWork(s: State): int {
    var n := |s.workers|;
    (s.rounds - s.mainEntered) * (2 * n + 3)
    + match s.main
      case Outside => 0
      case SetStart => 2 * n + 2
      case AwaitReady(i) => 2 * n + 1 - i
      case SetStop => n + 1
      case AwaitClear(i) => n - i
  }

  /** Steps a worker still has to take. */
  function WorkerWork(rounds: nat, entered: nat, w: Worker): int {
    (rounds - entered) * 5
    + match w
      case Away => 0
      case AwaitStart => 4
      case SetReady => 3
      case AwaitStop => 2
      case ClearReady => 1
  }

  function AllWorkerWork(rounds: nat, entered: seq<nat>, workers: seq<Worker>): int
    requires |entered| == |workers|
  {
    if workers == [] then 0
    else AllWorkerWork(rounds, entered[..|entered| - 1], workers[..|workers| - 1])
         + WorkerWork(rounds, entered[|entered| - 1], workers[|workers| - 1])
  }

  function Work(s: State): int
    requires Shape(s)
  {
    MainWork(s) + AllWorkerWork(s.rounds, s.entered, s.workers)
  }

  lemma {:induction false} WorkerWorkUpdates(rounds: nat, entered: seq<nat>, workers: seq<Worker>, i: nat, e: nat,
                                             w: Worker)
    requires |entered| == |workers| && i < |workers|
    ensures AllWorkerWork(rounds, entered[i := e], workers[i := w])
            == AllWorkerWork(rounds, entered, workers) - WorkerWork(rounds, entered[i], workers[i]) +
            WorkerWork(rounds, e, w)
  {
    var m := |workers| - 1;
    if i == m {
      assert entered[i := e][..m] == entered[..m] && workers[i := w][..m] == workers[..m];
    } else {
      assert entered[i := e][..m] == entered[..m][i := e] && workers[i := w][..m] == workers[..m][i := w];
      WorkerWorkUpdates(rounds, entered[..m], workers[..m], i, e, w);
    }
  }

  lemma {:induction false} WorkerWorkPositive(rounds: nat, entered: seq<nat>, workers: seq<Worker>)
    requires |entered| == |workers| && forall i :: 0 <= i < |entered| ==> entered[i] <= rounds
    ensures AllWorkerWork(rounds, entered, workers) >= 0
  {
    if workers != [] { WorkerWorkPositive(rounds, entered[..|entered| - 1], workers[..|workers| - 1]); }
  }

  /** Every step that is not a failed test is one step nearer to the end, so only a
      bounded number of them can be taken: every round comes to an end. */
  lemma {:induction false} StepsAreWork(s: State, step: Step)
    requires Inv(s) && Legal(s, step) && Do(s, step) != s
    ensures Shape(Do(s, step)) && 0 <= Work(Do(s, step)) < Work(s)
  {
    var s' := Do(s, step);
    StepKeeps(s, step);
    WorkPositive(s');
    if step.WorkerStep? {
      WorkerWorkShrinks(s, step.i);
    } else {
      MainWorkShrinks(s);
    }
  }

  lemma {:induction false} WorkPositive(s: State)
    requires Inv(s)
    ensures Work(s) >= 0
  {
    forall i | 0 <= i < |s.entered| ensures s.entered[i] <= s.rounds { assert WorkerOk(s, i); }
    WorkerWorkPositive(s.rounds, s.entered, s.workers);
    MainWorkPositive(s);
  }

  lemma {:induction false} WorkerWorkShrinks(s: State, i: nat)
    requires Inv(s) && i < |s.workers| && WorkerMoves(s, i) != s
    ensures Work(WorkerMoves(s, i)) < Work(s)
  {
    var s' := WorkerMoves(s, i);
    WorkerWorkUpdates(s.rounds, s.entered, s.workers, i, s'.entered[i], s'.workers[i]);
    assert s'.entered == s.entered[i := s'.entered[i]] && s'.workers == s.workers[i := s'.workers[i]];
  }

  lemma {:induction false} MainWorkPositive(s: State)
    requires MainOk(s)
    ensures MainWork(s) >= 0
  {
    var n := |s.workers|;
    assert (s.rounds - s.mainEntered) * (2 * n + 3) >= 0;
  }

  lemma {:induction false} MainWorkShrinks(s: State)
    requires Inv(s) && MainMoves(s) != s
    ensures MainWork(MainMoves(s)) < MainWork(s)
  {
    var n := |s.workers|;
    if s.main.Outside? {
      assert (s.rounds - s.mainEntered) * (2 * n + 3) == (s.rounds - s.mainEntered - 1) * (2 * n + 3) + (2 * n + 3);
    }
  }

  /** However the threads are scheduled, a run with no failed tests cannot be longer
      than the work it starts with. */
  lemma {:induction false} RunsEnd(states: seq<State>, steps: seq<Step>, t: nat)
    requires Run(states, steps) && t < |states|
    requires forall u :: 0 <= u < t ==> states[u + 1] != states[u]
    ensures Shape(states[0]) && Shape(states[t]) && t + Work(states[t]) <= Work(states[0])
  {
    RunInv(states, steps, t);
    if t > 0 {
      RunInv(states, steps, t - 1);
      RunsEnd(states, steps, t - 1);
      assert states[t] == Do(states[t - 1], steps[t - 1]) && states[t - 1 + 1] != states[t - 1];
      StepsAreWork(states[t - 1], steps[t - 1]);
    }
  }
}

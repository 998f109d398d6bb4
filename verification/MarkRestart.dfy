/**
 * Marking that starts where a cancelled one stopped. A cancelled worker leaves at the head of its loop, whatever its
 * segment and deque hold; the next cycle clears the bitmap, processes the roots and goes on with the same queues.
 */
module MarkRestart {
  import opened HeapGraph
  import opened MarkScript
  import opened ParallelMark
  import opened MarkExact

  /** Nobody holds a task, as when every worker has left at the head of its loop. */
  predicate BetweenTasks(s: State) {
    forall i :: 0 <= i < |s.workers| ==> s.workers[i].script == []
  }

  function RootSet(roots: seq<nat>): set<nat> { set r | r in roots }

  function Reset(ws: seq<Worker>): seq<Worker> {
    seq(|ws|, i requires 0 <= i < |ws| => ws[i].(phase := Popping(Local, 0)))
  }

  /** A cleared bitmap, processed roots, fresh workers on the old queues. */
  function Restarted(s: State, roots: seq<nat>): State {
    State(Reset(s.workers), s.injector + SeedRoots(roots).1, |s.workers|, SeedRoots(roots).0, multiset{})
  }

  lemma {:induction false} ResetCount(h: Heap, ws: seq<Worker>, slot: Slot)
    ensures WorkersCount(h, Reset(ws), slot) == WorkersCount(h, ws, slot)
  {
    if ws != [] {
      assert Reset(ws)[1..] == Reset(ws[1..]);
      ResetCount(h, ws[1..], slot);
    }
  }

  lemma RestartCount(c: Config, s: State, roots: seq<nat>, slot: Slot)
    requires forall r :: r in roots ==> r < |c.heap|
    ensures LeftOver(c, RootSet(roots), Restarted(s, roots), slot) == Pending(c.heap, s, slot)
  {
    SeedRootsCount(c.heap, roots, slot);
    TaskCountConcat(c.heap, s.injector, SeedRoots(roots).1, slot);
    ResetCount(c.heap, s.workers, slot);
  }

  /** Any queues whatever can be started from, and exactly what they hold is left over. */
  lemma RestartIsStarted(c: Config, s: State, roots: seq<nat>)
    requires |s.workers| >= 1 && QueuesOk(c.heap, s) && BetweenTasks(s) && forall r :: r in roots ==> r < |c.heap|
    ensures Started(c, RootSet(roots), Restarted(s, roots))
    ensures forall slot: Slot ::
              LeftOver(c, RootSet(roots), Restarted(s, roots), slot) == Pending(c.heap, s, slot)
  {
    var start := Restarted(s, roots);
    SeedRootsCount(c.heap, roots, Scan(0));
    forall slot: Slot ensures LeftOver(c, RootSet(roots), start, slot) == Pending(c.heap, s, slot) {
      RestartCount(c, s, roots, slot);
    }
    hide LeftOver, Pending;
    assert QueuesOk(c.heap, start);
  }

  // ---------------------------------------------------------------------------------------------
  // A dead object that keeps another one alive
  // ---------------------------------------------------------------------------------------------

  /** Object 0 points to object 1; nothing points to object 0. */
  function DeadPair(): Config {
    Config([Fixed(false, [1]), Fixed(false, [])], 32)
  }

  function Solo(local: seq<Task>, script: seq<Action>, marked: nat, phase: Phase): Worker {
    Worker(local, [], script, marked, phase)
  }

  function Alone(w: Worker, injector: seq<Task>, marked: set<nat>, visited: multiset<Slot>): State {
    State([w], injector, 1, marked, visited)
  }

  /** What a cancelled marking left: one task, for object 0. */
  function Cancelled(): State {
    Alone(Solo([], [], 0, Popping(Local, 0)), [ObjTask(0)], {}, multiset{})
  }

  function LeftOverSteps(): seq<Step> {
    [PopLocal(0), PopDeque(0), PopInjector(0, 0), Act(0), Act(0), Finish(0), PopLocal(0), Finish(0),
     PopLocal(0), PopDeque(0), PopInjector(0, 0), PopLocal(0), PopDeque(0), PopInjector(0, 0), Decrease(0)]
  }

  function LeftOverStates(): seq<State> {
    var field := Ref(0, -1, 0);
    var none, first, both := multiset{}, multiset{Scan(0)}, multiset{Scan(0), field};
    var all := multiset{Scan(0), field, Scan(1)};
    [
      Alone(Solo([], [], 0, Popping(Local, 0)), [ObjTask(0)], {}, none),
      Alone(Solo([], [], 0, Popping(Deque, 0)), [ObjTask(0)], {}, none),
      Alone(Solo([], [], 0, Popping(Global, 0)), [ObjTask(0)], {}, none),
      Alone(Solo([], [Visit(field)], 0, Running(0)), [], {}, first),
      Alone(Solo([], [Push(ObjTask(1))], 0, Running(0)), [], {1}, both),
      Alone(Solo([ObjTask(1)], [], 1, Running(0)), [], {1}, both),
      Alone(Solo([ObjTask(1)], [], 1, Popping(Local, 1)), [], {1}, both),
      Alone(Solo([], [], 1, Running(1)), [], {1}, all),
      Alone(Solo([], [], 1, Popping(Local, 2)), [], {1}, all),
      Alone(Solo([], [], 1, Popping(Deque, 2)), [], {1}, all),
      Alone(Solo([], [], 1, Popping(Global, 2)), [], {1}, all),
      Alone(Solo([], [], 1, Popping(Local, 0)), [], {1}, all),
      Alone(Solo([], [], 1, Popping(Deque, 0)), [], {1}, all),
      Alone(Solo([], [], 1, Popping(Global, 0)), [], {1}, all),
      Alone(Solo([], [], 1, Terminating), [], {1}, all),
      Alone(Solo([], [], 1, Exited), [], {1}, all).(active := 1)
    ]
  }

  predicate LeadsTo(c: Config, s: State, step: Step, after: State) {
    Enabled(c, s, step) && Apply(c, s, step) == after
  }

  lemma ScriptsOfPair()
    ensures Script(DeadPair().heap, ObjTask(0)) == [Visit(Ref(0, -1, 0))]
    ensures Script(DeadPair().heap, ObjTask(1)) == []
  {
    assert PartVisits(0, -1, 0) == [];
    assert PartVisits(0, -1, 1) == [Visit(Ref(0, -1, 0))];
  }

  lemma TaskIsTaken(k: nat)
    requires k < 3
    ensures LeadsTo(DeadPair(), LeftOverStates()[k], LeftOverSteps()[k], LeftOverStates()[k + 1])
  {
    ScriptsOfPair();
    hide Script;
    assert [ObjTask(0)][1..] == [] && [] + [ObjTask(0)][1..1] == [];
  }

  lemma FieldIsVisited()
    ensures LeadsTo(DeadPair(), LeftOverStates()[3], Act(0), LeftOverStates()[4])
  {
    hide Script;
    var field := Ref(0, -1, 0);
    assert [Visit(field)][1..] == [] && [Push(ObjTask(1))] + [] == [Push(ObjTask(1))];
    assert Target(DeadPair().heap, field) == 1;
    assert multiset{Scan(0)} + multiset{field} == multiset{Scan(0), field};
  }

  lemma TargetIsPushed()
    ensures LeadsTo(DeadPair(), LeftOverStates()[4], Act(0), LeftOverStates()[5])
  {
    hide Script;
    assert [Push(ObjTask(1))][1..] == [] && [] + [ObjTask(1)] == [ObjTask(1)];
  }

  lemma TargetRuns(k: nat)
    requires 5 <= k < 8
    ensures LeadsTo(DeadPair(), LeftOverStates()[k], LeftOverSteps()[k], LeftOverStates()[k + 1])
  {
    ScriptsOfPair();
    hide Script;
    assert [ObjTask(1)][..0] == [];
    assert multiset{Scan(0), Ref(0, -1, 0)} + multiset{Scan(1)} == multiset{Scan(0), Ref(0, -1, 0), Scan(1)};
  }

  lemma SearchRuns(k: nat)
    requires 8 <= k < 15
    ensures LeadsTo(DeadPair(), LeftOverStates()[k], LeftOverSteps()[k], LeftOverStates()[k + 1])
  {
    hide Script;
  }

  lemma {:induction false} NothingWithoutRoots(h: Heap, path: seq<Slot>, o: nat)
    ensures !PathTo(h, {}, path, o)
    decreases |path|
  {
    if path != [] {
      NothingWithoutRoots(h, path[..|path| - 1], path[|path| - 1].obj);
    }
  }

  lemma PairIsOk()
    ensures ConfigOk(DeadPair()) && QueuesOk(DeadPair().heap, Cancelled()) && BetweenTasks(Cancelled())
    ensures Restarted(Cancelled(), []) == LeftOverStates()[0]
  {
    var h := DeadPair().heap;
    assert |h| == 2 && forall o :: 0 <= o < 2 ==> |h[o].Elems()| == 0;
    assert Reset(Cancelled().workers) == Cancelled().workers;
    assert [ObjTask(0)] + [] == [ObjTask(0)];
  }

  lemma EveryStepRuns(k: nat)
    requires k < 15
    ensures |LeftOverStates()| == 16 && |LeftOverSteps()| == 15
    ensures LeadsTo(DeadPair(), LeftOverStates()[k], LeftOverSteps()[k], LeftOverStates()[k + 1])
  {
    hide LeadsTo;
    if k < 3 {
      TaskIsTaken(k);
    } else if k == 3 {
      FieldIsVisited();
    } else if k == 4 {
      TargetIsPushed();
    } else if k < 8 {
      TargetRuns(k);
    } else {
      SearchRuns(k);
    }
  }

  lemma FirstIsStarted()
    ensures |LeftOverStates()| == 16 && Started(DeadPair(), {}, LeftOverStates()[0])
  {
    PairIsOk();
    RestartIsStarted(DeadPair(), Cancelled(), []);
    assert RootSet([]) == {};
  }

  lemma LastState()
    ensures |LeftOverStates()| == 16 && |LeftOverSteps()| == 15 && |LeftOverStates()[15].workers| == 1
    ensures LeftOverStates()[15].workers[0].phase.Exited? && LeftOverStates()[15].marked == {1}
  {
  }

  lemma NothingIsReachable(h: Heap, o: nat)
    ensures !Reachable(h, {}, o)
  {
    forall path ensures !PathTo(h, {}, path, o) {
      NothingWithoutRoots(h, path, o);
    }
  }

  /**
   * A full cycle without any root, after a marking that was cancelled with one task left: the worker leaves with object
   * 1 marked, although nothing is reachable.
   */
  lemma DeadObjectMarks()
    ensures ConfigOk(DeadPair()) && IsRun(DeadPair(), {}, LeftOverStates(), LeftOverSteps())
    ensures |LeftOverStates()| == 16 && |LeftOverStates()[15].workers| == 1
    ensures LeftOverStates()[15].workers[0].phase.Exited? && 1 in LeftOverStates()[15].marked
    ensures !Reachable(DeadPair().heap, {}, 1)
  {
    hide Started, Apply, Enabled, LeftOverStates, LeftOverSteps, DeadPair, QueuesOk, Reachable, ConfigOk, BetweenTasks;
    FirstIsStarted();
    PairIsOk();
    LastState();
    NothingIsReachable(DeadPair().heap, 1);
    var c, states, steps := DeadPair(), LeftOverStates(), LeftOverSteps();
    forall k | 0 <= k < |steps|
      ensures Enabled(c, states[k], steps[k]) && states[k + 1] == Apply(c, states[k], steps[k])
    {
      EveryStepRuns(k);
    }
  }
}

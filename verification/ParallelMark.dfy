/**
 * Parallel stop-the-world marking as an interleaved step system.
 *
 * Each worker owns a local segment and a deque, shares the injector, steals from other deques and leaves through
 * the counting terminator. Every atomic access to shared state is one step; steps of different workers
 * interleave freely.
 */
module ParallelMark {
  import opened HeapGraph
  import opened MarkScript

  const SEGMENT_SIZE: nat := 64

  datatype Stage = Local | Deque | Global | Steal(tries: nat)

  /**
   * Where a worker stands in `run::<false>` and `try_terminate`. `work` counts the mark tasks done in the current
   * pass of the outer loop.
   */
  datatype Phase =
    | Popping(stage: Stage, work: nat)
    | Running(work: nat)
    | Terminating
    | Sleeping
    | Rejoining(seen: int)
    | Exited

  datatype Worker = Worker(local: seq<Task>, deque: seq<Task>, script: seq<Action>, marked: nat, phase: Phase)

  /** `visited` records, for the statements below, each slot handled so far. */
  datatype State = State(
    workers: seq<Worker>, injector: seq<Task>, active: int, marked: set<nat>, visited: multiset<Slot>)

  /** What does not change during a run: the heap and `mark_loop_stride`. */
  datatype Config = Config(heap: Heap, stride: nat)

  ghost predicate ConfigOk(c: Config) {
    WellFormed(c.heap) && c.stride >= 32
  }

  datatype Step =
    | PopLocal(i: nat)
    | PopDeque(i: nat)
    | PopInjector(i: nat, batch: nat)
    | StealFrom(i: nat, victim: nat, batch: nat)
    | Act(i: nat)
    | Finish(i: nat)
    | Decrease(i: nat)
    | Wake(i: nat)
    | Rejoin(i: nat)

  // ---------------------------------------------------------------------------------------------
  // Steps
  // ---------------------------------------------------------------------------------------------

  function Put(s: State, i: nat, w: Worker): State
    requires i < |s.workers|
  {
    s.(workers := s.workers[i := w])
  }

  /** A worker takes hold of a task: its script becomes the rest of the current pass. */
  function Begin(c: Config, s: State, i: nat, w: Worker, t: Task, work: nat): State
    requires i < |s.workers| && TaskOk(c.heap, t)
  {
    var s' := Put(s, i, w.(script := Script(c.heap, t), phase := Running(work)));
    if t.ObjTask? then s'.(visited := s.visited + multiset{Scan(t.obj)}) else s'
  }

  /** `pop` returned nothing: a pass that did work starts over, an idle one tries to terminate. */
  function NoTask(work: nat): Phase {
    if work == 0 then Terminating else Popping(Local, 0)
  }

  predicate Enabled(c: Config, s: State, step: Step) {
    step.i < |s.workers| &&
    var w := s.workers[step.i];
    match step
    case PopLocal(_) =>
      w.phase.Popping? && w.phase.stage.Local? && (w.local != [] ==> TaskOk(c.heap, w.local[|w.local| - 1]))
    case PopDeque(_) =>
      w.phase.Popping? && w.phase.stage.Deque? && (w.deque != [] ==> TaskOk(c.heap, w.deque[|w.deque| - 1]))
    case PopInjector(_, batch) =>
      w.phase.Popping? && w.phase.stage.Global? &&
      (s.injector != [] ==> batch < |s.injector| && TaskOk(c.heap, s.injector[0]))
    case StealFrom(i, v, batch) =>
      w.phase.Popping? && w.phase.stage.Steal? && v < |s.workers| && v != i &&
      (s.workers[v].deque != [] ==> batch < |s.workers[v].deque| && TaskOk(c.heap, s.workers[v].deque[0]))
    case Act(_) => w.phase.Running? && w.script != [] && ActionOk(c.heap, w.script[0])
    case Finish(_) => w.phase.Running? && w.script == []
    case Decrease(_) => w.phase.Terminating?
    case Wake(_) => w.phase.Sleeping?
    case Rejoin(_) => w.phase.Rejoining?
  }

  function DoPopLocal(c: Config, s: State, i: nat): State
    requires Enabled(c, s, PopLocal(i))
  {
    var w := s.workers[i];
    var n := |w.local|;
    if n == 0 then Put(s, i, w.(phase := Popping(Deque, w.phase.work)))
    else Begin(c, s, i, w.(local := w.local[..n - 1]), w.local[n - 1], w.phase.work)
  }

  function DoPopDeque(c: Config, s: State, i: nat): State
    requires Enabled(c, s, PopDeque(i))
  {
    var w := s.workers[i];
    var n := |w.deque|;
    if n == 0 then Put(s, i, w.(phase := Popping(Global, w.phase.work)))
    else Begin(c, s, i, w.(deque := w.deque[..n - 1]), w.deque[n - 1], w.phase.work)
  }

  /** `steal_batch_and_pop` on the injector: one task is returned, `batch` more go to the worker's deque. */
  function DoPopInjector(c: Config, s: State, i: nat, batch: nat): State
    requires Enabled(c, s, PopInjector(i, batch))
  {
    var w := s.workers[i];
    if s.injector == [] then
      Put(s, i, w.(phase := if |s.workers| == 1 then NoTask(w.phase.work) else Popping(Steal(0), w.phase.work)))
    else
      var s' := s.(injector := s.injector[batch + 1..]);
      Begin(c, s', i, w.(deque := w.deque + s.injector[1..batch + 1]), s.injector[0], w.phase.work)
  }

  /** One of the 2n attempts to steal from another worker's deque. */
  function DoSteal(c: Config, s: State, i: nat, v: nat, batch: nat): State
    requires Enabled(c, s, StealFrom(i, v, batch))
  {
    var w, victim := s.workers[i], s.workers[v];
    if victim.deque == [] then
      var tries := w.phase.stage.tries + 1;
      Put(s, i, w.(phase := if tries >= 2 * |s.workers| then NoTask(w.phase.work)
                            else Popping(Steal(tries), w.phase.work)))
    else
      var s' := Put(s, v, victim.(deque := victim.deque[batch + 1..]));
      Begin(c, s', i, w.(deque := w.deque + victim.deque[1..batch + 1]), victim.deque[0], w.phase.work)
  }

  /** `SlotVisitor::push`, up to the decision to spill. */
  function PushTask(w: Worker, t: Task): Worker
    requires w.script != []
  {
    var rest := w.script[1..];
    if |w.local| < SEGMENT_SIZE then
      var local := w.local + [t];
      if w.marked + 1 > 256 then
        w.(local := local, marked := 0,
           script := if |local| > 4 then [Spill(|local| / 2)] + rest else rest)
      else w.(local := local, marked := w.marked + 1, script := rest)
    else w.(deque := w.deque + [t], script := rest)
  }

  function DoAct(c: Config, s: State, i: nat): State
    requires Enabled(c, s, Act(i))
  {
    var w := s.workers[i];
    var rest := w.script[1..];
    match w.script[0]
    case Visit(slot) =>
      var o := Target(c.heap, slot);
      var s' := s.(visited := s.visited + multiset{slot});
      if o in s.marked then Put(s', i, w.(script := rest))
      else Put(s'.(marked := s.marked + {o}), i, w.(script := [Push(ObjTask(o))] + rest))
    case Push(t) => Put(s, i, PushTask(w, t))
    case Spill(target) =>
      if |w.local| > target then
        var n := |w.local|;
        Put(s.(injector := s.injector + [w.local[n - 1]]), i, w.(local := w.local[..n - 1]))
      else Put(s, i, w.(script := rest))
  }

  function DoFinish(c: Config, s: State, i: nat): State
    requires Enabled(c, s, Finish(i))
  {
    var w := s.workers[i];
    var work := w.phase.work + 1;
    Put(s, i, w.(phase := Popping(Local, if work == c.stride then 0 else work)))
  }

  /** `try_terminate` up to the sleep. */
  function DoDecrease(c: Config, s: State, i: nat): State
    requires Enabled(c, s, Decrease(i))
  {
    var w := s.workers[i];
    if |s.workers| == 1 then Put(s, i, w.(phase := Exited))
    else
      var s' := s.(active := s.active - 1);
      Put(s', i, w.(phase := if s.active == 1 then Exited else Sleeping))
  }

  /** The load at the start of `zero_or_increase_workers`. */
  function DoWake(c: Config, s: State, i: nat): State
    requires Enabled(c, s, Wake(i))
  {
    Put(s, i, s.workers[i].(phase := if s.active == 0 then Exited else Rejoining(s.active)))
  }

  /** One compare-and-exchange of `zero_or_increase_workers`. */
  function DoRejoin(c: Config, s: State, i: nat): State
    requires Enabled(c, s, Rejoin(i))
  {
    var w := s.workers[i];
    if s.active == w.phase.seen then
      Put(s.(active := s.active + 1), i, w.(phase := Popping(Local, 0)))
    else Put(s, i, w.(phase := if s.active == 0 then Exited else Rejoining(s.active)))
  }

  function Apply(c: Config, s: State, step: Step): State
    requires Enabled(c, s, step)
  {
    match step
    case PopLocal(i) => DoPopLocal(c, s, i)
    case PopDeque(i) => DoPopDeque(c, s, i)
    case PopInjector(i, batch) => DoPopInjector(c, s, i, batch)
    case StealFrom(i, v, batch) => DoSteal(c, s, i, v, batch)
    case Act(i) => DoAct(c, s, i)
    case Finish(i) => DoFinish(c, s, i)
    case Decrease(i) => DoDecrease(c, s, i)
    case Wake(i) => DoWake(c, s, i)
    case Rejoin(i) => DoRejoin(c, s, i)
  }

  // ---------------------------------------------------------------------------------------------
  // Starting states and runs
  // ---------------------------------------------------------------------------------------------

  /** The slots a worker's queues and script still answer for. */
  function WorkerCount(h: Heap, w: Worker, slot: Slot): nat {
    TaskCount(h, w.local, slot) + TaskCount(h, w.deque, slot) + ScriptCount(h, w.script, slot)
  }

  function WorkersCount(h: Heap, ws: seq<Worker>, slot: Slot): nat {
    if ws == [] then 0 else WorkerCount(h, ws[0], slot) + WorkersCount(h, ws[1..], slot)
  }

  function Pending(h: Heap, s: State, slot: Slot): nat {
    TaskCount(h, s.injector, slot) + WorkersCount(h, s.workers, slot)
  }

  ghost predicate QueuesOk(h: Heap, s: State) {
    TasksOk(h, s.injector) &&
    forall i :: 0 <= i < |s.workers| ==>
      TasksOk(h, s.workers[i].local) && TasksOk(h, s.workers[i].deque) && ScriptOk(h, s.workers[i].script)
  }

  /**
   * The state after root processing over a cleared bitmap: the roots are marked, and every root's task waits in some
   * queue (the injector, or a worker's own queues when roots are processed in parallel). The queues may hold more:
   * nothing empties them when an earlier marking is cancelled.
   */
  ghost predicate Started(c: Config, roots: set<nat>, s: State) {
    |s.workers| >= 1 && s.active == |s.workers| && s.visited == multiset{} &&
    s.marked == roots && (forall r :: r in roots ==> r < |c.heap|) && QueuesOk(c.heap, s) &&
    (forall i :: 0 <= i < |s.workers| ==> s.workers[i].phase == Popping(Local, 0) && s.workers[i].script == []) &&
    (forall slot: Slot :: LeftOver(c, roots, s, slot) >= 0)
  }

  /** How often a slot is pending beyond what the roots ask for. */
  function LeftOver(c: Config, roots: set<nat>, s: State, slot: Slot): int {
    Pending(c.heap, s, slot) - Bit(ValidSlot(c.heap, slot) && slot.obj in roots)
  }

  /** The objects that left-over work points to. */
  ghost function LeftTargets(c: Config, roots: set<nat>, s: State): set<nat> {
    set o: nat | o < |c.heap| && IsLeftTarget(c, roots, s, o)
  }

  ghost predicate IsLeftTarget(c: Config, roots: set<nat>, s: State, o: nat) {
    exists slot: Slot ::
      LeftOver(c, roots, s, slot) > 0 && slot.Ref? && ValidSlot(c.heap, slot) && Target(c.heap, slot) == o
  }

  /** A start with nothing left over. */
  ghost predicate Seeded(c: Config, roots: set<nat>, s: State) {
    Started(c, roots, s) && forall slot: Slot :: LeftOver(c, roots, s, slot) == 0
  }

  ghost predicate IsRun(c: Config, roots: set<nat>, states: seq<State>, steps: seq<Step>) {
    |states| == |steps| + 1 && Started(c, roots, states[0]) &&
    forall k :: 0 <= k < |steps| ==> Enabled(c, states[k], steps[k]) && states[k + 1] == Apply(c, states[k], steps[k])
  }
}

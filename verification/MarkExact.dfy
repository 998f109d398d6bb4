/**
 * Stop-the-world marking marks exactly what is reachable from the roots and from whatever work was left in its queues,
 * scanning each object once for itself and once more for every left-over task.
 */
module MarkExact {
  import opened HeapGraph
  import opened MarkScript
  import opened ParallelMark
  import MarkTermination

  /** How often a slot was visited plus how often it is still pending. */
  function Load(c: Config, s: State, slot: Slot): nat {
    s.visited[slot] + Pending(c.heap, s, slot)
  }

  /** A slot is visited or pending once if its object is marked, and once more for each time it was left over. */
  ghost predicate Balanced(c: Config, s: State, slot: Slot, left: int) {
    Load(c, s, slot) == Bit(ValidSlot(c.heap, slot) && slot.obj in s.marked) + left
  }

  /** Where marking starts from: the roots, and the targets of the work left over in the first state. */
  ghost function Sources(c: Config, roots: set<nat>, start: State): set<nat> {
    roots + LeftTargets(c, roots, start)
  }

  ghost predicate MarkedReachable(c: Config, roots: set<nat>, sources: set<nat>, s: State) {
    (forall r :: r in roots ==> r in s.marked) &&
    (forall o :: o in s.marked ==> o < |c.heap| && Reachable(c.heap, sources, o))
  }

  ghost predicate VisitedMarked(c: Config, s: State) {
    forall slot: Slot :: slot.Ref? && ValidSlot(c.heap, slot) && slot in s.visited ==> Target(c.heap, slot) in s.marked
  }

  ghost predicate Inv(c: Config, roots: set<nat>, start: State, s: State) {
    QueuesOk(c.heap, s) && MarkedReachable(c, roots, Sources(c, roots, start), s) && VisitedMarked(c, s) &&
    forall slot: Slot :: Balanced(c, s, slot, LeftOver(c, roots, start, slot))
  }

  // ---------------------------------------------------------------------------------------------
  // Conservation
  // ---------------------------------------------------------------------------------------------

  lemma {:induction false} CountUpdate(h: Heap, ws: seq<Worker>, i: nat, w: Worker, slot: Slot)
    requires i < |ws|
    ensures WorkersCount(h, ws[i := w], slot)
         == WorkersCount(h, ws, slot) - WorkerCount(h, ws[i], slot) + WorkerCount(h, w, slot)
  {
    if i == 0 {
      assert ws[i := w][1..] == ws[1..];
    } else {
      assert ws[i := w][1..] == ws[1..][i - 1 := w];
      CountUpdate(h, ws[1..], i - 1, w, slot);
    }
  }

  lemma {:induction false} CountPositive(h: Heap, ws: seq<Worker>, i: nat, slot: Slot)
    requires i < |ws|
    ensures WorkersCount(h, ws, slot) >= WorkerCount(h, ws[i], slot)
  {
    if i > 0 {
      CountPositive(h, ws[1..], i - 1, slot);
    }
  }

  /** Taking hold of a task trades its slots for those of its script, and its own scan for a visit. */
  lemma BeginBalance(c: Config, s: State, i: nat, w: Worker, t: Task, work: nat, slot: Slot)
    requires ConfigOk(c) && i < |s.workers| && TaskOk(c.heap, t)
    requires w.script == []
    ensures Load(c, Begin(c, s, i, w, t, work), slot)
         == Load(c, s, slot) - WorkerCount(c.heap, s.workers[i], slot)
            + WorkerCount(c.heap, w, slot) + Bit(TaskCovers(c.heap, t, slot))
  {
    var w' := w.(script := Script(c.heap, t), phase := Running(work));
    CountUpdate(c.heap, s.workers, i, w', slot);
    ScriptExact(c.heap, t, slot);
  }

  lemma TaskCountBatch(h: Heap, ts: seq<Task>, batch: nat, slot: Slot)
    requires batch < |ts|
    ensures TaskCount(h, ts, slot) ==
            Bit(TaskCovers(h, ts[0], slot)) + TaskCount(h, ts[1..batch + 1], slot) + TaskCount(h, ts[batch + 1..], slot)
  {
    assert ts == [ts[0]] + ts[1..batch + 1] + ts[batch + 1..];
    TaskCountConcat(h, [ts[0]] + ts[1..batch + 1], ts[batch + 1..], slot);
    TaskCountConcat(h, [ts[0]], ts[1..batch + 1], slot);
    assert [ts[0]][..0] == [] && TaskCount(h, [ts[0]], slot) == Bit(TaskCovers(h, ts[0], slot));
  }

  lemma TaskCountOne(h: Heap, ts: seq<Task>, t: Task, slot: Slot)
    ensures TaskCount(h, ts + [t], slot) == TaskCount(h, ts, slot) + Bit(TaskCovers(h, t, slot))
  {
    assert (ts + [t])[..|ts|] == ts;
  }

  lemma PhaseBalance(c: Config, s: State, i: nat, phase: Phase, slot: Slot)
    requires i < |s.workers|
    ensures Load(c, Put(s, i, s.workers[i].(phase := phase)), slot) == Load(c, s, slot)
  {
    CountUpdate(c.heap, s.workers, i, s.workers[i].(phase := phase), slot);
  }

  lemma PopOwnBalance(c: Config, s: State, step: Step, slot: Slot)
    requires ConfigOk(c) && Enabled(c, s, step) && s.workers[step.i].script == []
    requires step.PopLocal? || step.PopDeque?
    ensures Load(c, Apply(c, s, step), slot) == Load(c, s, slot)
  {
    hide Script, TaskCovers, TaskOk, Load;
    var w, i := s.workers[step.i], step.i;
    PhaseBalance(c, s, i, Apply(c, s, step).workers[i].phase, slot);
    if step.PopLocal? && w.local != [] {
      var n := |w.local|;
      BeginBalance(c, s, i, w.(local := w.local[..n - 1]), w.local[n - 1], w.phase.work, slot);
    } else if step.PopDeque? && w.deque != [] {
      var n := |w.deque|;
      BeginBalance(c, s, i, w.(deque := w.deque[..n - 1]), w.deque[n - 1], w.phase.work, slot);
    }
  }

  lemma PopInjectorBalance(c: Config, s: State, i: nat, batch: nat, slot: Slot)
    requires ConfigOk(c) && Enabled(c, s, PopInjector(i, batch)) && s.workers[i].script == []
    ensures Load(c, DoPopInjector(c, s, i, batch), slot) == Load(c, s, slot)
  {
    var w := s.workers[i];
    if s.injector == [] {
      PhaseBalance(c, s, i, DoPopInjector(c, s, i, batch).workers[i].phase, slot);
    } else {
      var s1 := s.(injector := s.injector[batch + 1..]);
      var moved := s.injector[1..batch + 1];
      TaskCountBatch(c.heap, s.injector, batch, slot);
      TaskCountConcat(c.heap, w.deque, moved, slot);
      BeginBalance(c, s1, i, w.(deque := w.deque + moved), s.injector[0], w.phase.work, slot);
    }
  }

  lemma StealBalance(c: Config, s: State, i: nat, v: nat, batch: nat, slot: Slot)
    requires ConfigOk(c) && Enabled(c, s, StealFrom(i, v, batch)) && s.workers[i].script == []
    ensures Load(c, DoSteal(c, s, i, v, batch), slot) == Load(c, s, slot)
  {
    var w, victim := s.workers[i], s.workers[v];
    if victim.deque == [] {
      PhaseBalance(c, s, i, DoSteal(c, s, i, v, batch).workers[i].phase, slot);
    } else {
      var shorter := victim.(deque := victim.deque[batch + 1..]);
      var s1 := Put(s, v, shorter);
      var moved := victim.deque[1..batch + 1];
      CountUpdate(c.heap, s.workers, v, shorter, slot);
      TaskCountBatch(c.heap, victim.deque, batch, slot);
      TaskCountConcat(c.heap, w.deque, moved, slot);
      BeginBalance(c, s1, i, w.(deque := w.deque + moved), victim.deque[0], w.phase.work, slot);
    }
  }

  lemma PushBalance(h: Heap, w: Worker, t: Task, slot: Slot)
    requires w.script != [] && w.script[0] == Push(t)
    ensures WorkerCount(h, PushTask(w, t), slot) == WorkerCount(h, w, slot)
  {
    hide TaskCovers, TaskCount;
    var rest := w.script[1..];
    assert ([Spill((|w.local| + 1) / 2)] + rest)[1..] == rest;
    TaskCountOne(h, w.local, t, slot);
    TaskCountOne(h, w.deque, t, slot);
  }

  /** A visit turns a pending slot into a visited one, and brings in the slots of a newly marked object. */
  lemma VisitBalance(c: Config, s: State, i: nat, slot: Slot)
    requires Enabled(c, s, Act(i)) && s.workers[i].script[0].Visit?
    ensures Load(c, Apply(c, s, Act(i)), slot)
         == Load(c, s, slot)
            + Bit(ValidSlot(c.heap, slot) && slot.obj in Apply(c, s, Act(i)).marked && slot.obj !in s.marked)
  {
    var w, s' := s.workers[i], DoAct(c, s, i);
    var o, rest := Target(c.heap, w.script[0].slot), w.script[1..];
    CountUpdate(c.heap, s.workers, i, s'.workers[i], slot);
    if o !in s.marked {
      assert ([Push(ObjTask(o))] + rest)[1..] == rest;
      assert WorkerCount(c.heap, s'.workers[i], slot)
          == WorkerCount(c.heap, w, slot) - Bit(w.script[0].slot == slot) + Bit(TaskCovers(c.heap, ObjTask(o), slot));
    } else {
      assert WorkerCount(c.heap, s'.workers[i], slot) == WorkerCount(c.heap, w, slot) - Bit(w.script[0].slot == slot);
    }
  }

  lemma ActBalance(c: Config, s: State, i: nat, slot: Slot)
    requires Enabled(c, s, Act(i)) && !s.workers[i].script[0].Visit?
    ensures Load(c, Apply(c, s, Act(i)), slot) == Load(c, s, slot)
  {
    var w, s' := s.workers[i], DoAct(c, s, i);
    CountUpdate(c.heap, s.workers, i, s'.workers[i], slot);
    match w.script[0]
    case Push(t) => PushBalance(c.heap, w, t, slot);
    case Spill(target) =>
      if |w.local| > target {
        TaskCountOne(c.heap, s.injector, w.local[|w.local| - 1], slot);
      }
  }

  lemma BalanceStep(c: Config, s: State, step: Step, slot: Slot, left: int)
    requires ConfigOk(c) && MarkTermination.Inv(s) && Enabled(c, s, step) && Balanced(c, s, slot, left)
    ensures Balanced(c, Apply(c, s, step), slot, left)
  {
    hide DoPopLocal, DoPopDeque, DoPopInjector, DoSteal, DoFinish;
    if step.Act? && s.workers[step.i].script[0].Visit? {
      VisitBalance(c, s, step.i, slot);
    } else if step.Act? {
      ActBalance(c, s, step.i, slot);
    } else if step.StealFrom? {
      TakeMarksNothing(c, s, step);
      StealBalance(c, s, step.i, step.victim, step.batch, slot);
    } else if step.PopInjector? {
      TakeMarksNothing(c, s, step);
      PopInjectorBalance(c, s, step.i, step.batch, slot);
    } else if step.PopLocal? || step.PopDeque? {
      TakeMarksNothing(c, s, step);
      PopOwnBalance(c, s, step, slot);
    } else {
      CountingBalance(c, s, step, slot);
    }
  }

  lemma CountingBalance(c: Config, s: State, step: Step, slot: Slot)
    requires Enabled(c, s, step) && (MarkTermination.Counting(step) || step.Finish?)
    ensures Load(c, Apply(c, s, step), slot) == Load(c, s, slot) && Apply(c, s, step).marked == s.marked
  {
    PhaseBalance(c, s, step.i, Apply(c, s, step).workers[step.i].phase, slot);
  }

  /** Taking a task marks nothing and records at most a scan. */
  predicate MarksNothing(s: State, after: State) {
    after.marked == s.marked && forall slot: Slot :: slot.Ref? && slot in after.visited ==> slot in s.visited
  }

  lemma OwnPopMarksNothing(c: Config, s: State, i: nat)
    ensures Enabled(c, s, PopLocal(i)) ==> MarksNothing(s, DoPopLocal(c, s, i))
    ensures Enabled(c, s, PopDeque(i)) ==> MarksNothing(s, DoPopDeque(c, s, i))
  {
    hide Script, TaskOk;
  }

  lemma InjectorMarksNothing(c: Config, s: State, i: nat, batch: nat)
    requires Enabled(c, s, PopInjector(i, batch))
    ensures MarksNothing(s, DoPopInjector(c, s, i, batch))
  {
    hide Script, TaskOk;
  }

  lemma StealMarksNothing(c: Config, s: State, i: nat, v: nat, batch: nat)
    requires Enabled(c, s, StealFrom(i, v, batch))
    ensures MarksNothing(s, DoSteal(c, s, i, v, batch))
  {
    hide Script, TaskOk;
  }

  lemma TakeMarksNothing(c: Config, s: State, step: Step)
    requires Enabled(c, s, step) && !step.Act?
    ensures Apply(c, s, step).marked == s.marked
    ensures forall slot: Slot :: slot.Ref? && slot in Apply(c, s, step).visited ==> slot in s.visited
  {
    hide DoPopLocal, DoPopDeque, DoPopInjector, DoSteal;
    match step
    case PopLocal(i) => OwnPopMarksNothing(c, s, i);
    case PopDeque(i) => OwnPopMarksNothing(c, s, i);
    case PopInjector(i, batch) => InjectorMarksNothing(c, s, i, batch);
    case StealFrom(i, v, batch) => StealMarksNothing(c, s, i, v, batch);
    case Finish(_) =>
    case Decrease(_) =>
    case Wake(_) =>
    case Rejoin(_) =>
  }

  // ---------------------------------------------------------------------------------------------
  // The whole invariant
  // ---------------------------------------------------------------------------------------------

  lemma ScriptOkOf(h: Heap, t: Task)
    requires WellFormed(h) && TaskOk(h, t)
    ensures ScriptOk(h, Script(h, t))
  {
    ScriptExact(h, t, Scan(0));
  }

  lemma QueuesOkBegin(c: Config, s: State, i: nat, w: Worker, t: Task, work: nat)
    requires ConfigOk(c) && QueuesOk(c.heap, s) && i < |s.workers| && TaskOk(c.heap, t)
    requires TasksOk(c.heap, w.local) && TasksOk(c.heap, w.deque)
    ensures QueuesOk(c.heap, Begin(c, s, i, w, t, work))
  {
    ScriptOkOf(c.heap, t);
  }

  lemma QueuesOkPopLocal(c: Config, s: State, i: nat)
    requires ConfigOk(c) && QueuesOk(c.heap, s) && Enabled(c, s, PopLocal(i))
    ensures QueuesOk(c.heap, DoPopLocal(c, s, i))
  {
    hide Script, TaskOk, ActionOk;
    var w := s.workers[i];
    if w.local != [] {
      QueuesOkBegin(c, s, i, w.(local := w.local[..|w.local| - 1]), w.local[|w.local| - 1], w.phase.work);
    }
  }

  lemma QueuesOkPopDeque(c: Config, s: State, i: nat)
    requires ConfigOk(c) && QueuesOk(c.heap, s) && Enabled(c, s, PopDeque(i))
    ensures QueuesOk(c.heap, DoPopDeque(c, s, i))
  {
    hide Script, TaskOk, ActionOk;
    var w := s.workers[i];
    if w.deque != [] {
      QueuesOkBegin(c, s, i, w.(deque := w.deque[..|w.deque| - 1]), w.deque[|w.deque| - 1], w.phase.work);
    }
  }

  lemma QueuesOkPopInjector(c: Config, s: State, i: nat, batch: nat)
    requires ConfigOk(c) && QueuesOk(c.heap, s) && Enabled(c, s, PopInjector(i, batch))
    ensures QueuesOk(c.heap, DoPopInjector(c, s, i, batch))
  {
    hide Script, TaskOk, ActionOk;
    var w := s.workers[i];
    if s.injector != [] {
      var s1 := s.(injector := s.injector[batch + 1..]);
      QueuesOkBegin(c, s1, i, w.(deque := w.deque + s.injector[1..batch + 1]), s.injector[0], w.phase.work);
    }
  }

  lemma QueuesOkSteal(c: Config, s: State, i: nat, v: nat, batch: nat)
    requires ConfigOk(c) && QueuesOk(c.heap, s) && Enabled(c, s, StealFrom(i, v, batch))
    ensures QueuesOk(c.heap, DoSteal(c, s, i, v, batch))
  {
    var w, victim := s.workers[i], s.workers[v];
    if victim.deque != [] {
      var s1 := Put(s, v, victim.(deque := victim.deque[batch + 1..]));
      QueuesOkBegin(c, s1, i, w.(deque := w.deque + victim.deque[1..batch + 1]), victim.deque[0], w.phase.work);
    }
  }

  lemma QueuesOkAct(c: Config, s: State, i: nat)
    requires ConfigOk(c) && QueuesOk(c.heap, s) && Enabled(c, s, Act(i))
    ensures QueuesOk(c.heap, DoAct(c, s, i))
  {
    var w := s.workers[i];
    var w' := DoAct(c, s, i).workers[i];
    assert TasksOk(c.heap, w'.local) && TasksOk(c.heap, w'.deque);
    assert ScriptOk(c.heap, w.script[1..]);
    assert ScriptOk(c.heap, w'.script);
  }

  lemma QueuesOkStep(c: Config, s: State, step: Step)
    requires ConfigOk(c) && QueuesOk(c.heap, s) && Enabled(c, s, step)
    ensures QueuesOk(c.heap, Apply(c, s, step))
  {
    hide DoPopLocal, DoPopDeque, DoPopInjector, DoSteal, DoAct;
    if step.PopLocal? {
      QueuesOkPopLocal(c, s, step.i);
    } else if step.PopDeque? {
      QueuesOkPopDeque(c, s, step.i);
    } else if step.PopInjector? {
      QueuesOkPopInjector(c, s, step.i, step.batch);
    } else if step.StealFrom? {
      QueuesOkSteal(c, s, step.i, step.victim, step.batch);
    } else if step.Act? {
      QueuesOkAct(c, s, step.i);
    }
  }

  /** Apart from a visit, a step marks nothing and visits no pointer. */
  lemma MarksOnlyByVisit(c: Config, s: State, step: Step)
    requires Enabled(c, s, step) && !(step.Act? && s.workers[step.i].script[0].Visit?)
    ensures Apply(c, s, step).marked == s.marked
    ensures forall slot: Slot :: slot.Ref? && slot in Apply(c, s, step).visited ==> slot in s.visited
  {
    if !step.Act? {
      TakeMarksNothing(c, s, step);
    }
  }

  lemma SourceIsReachable(h: Heap, sources: set<nat>, o: nat)
    requires o in sources && o < |h|
    ensures Reachable(h, sources, o)
  {
    assert PathTo(h, sources, [], o);
  }

  /** The slot at the head of a script belongs to a marked object or was left over. */
  lemma HeadIsExpected(c: Config, roots: set<nat>, start: State, s: State, i: nat)
    requires Inv(c, roots, start, s) && Enabled(c, s, Act(i)) && s.workers[i].script[0].Visit?
    ensures var slot := s.workers[i].script[0].slot;
            slot.obj in s.marked || LeftOver(c, roots, start, slot) > 0
  {
    var slot := s.workers[i].script[0].slot;
    CountPositive(c.heap, s.workers, i, slot);
    assert Balanced(c, s, slot, LeftOver(c, roots, start, slot));
  }

  /** What a visit marks is reachable from the sources. */
  lemma TargetIsReachable(c: Config, roots: set<nat>, start: State, s: State, i: nat)
    requires ConfigOk(c) && Inv(c, roots, start, s) && Enabled(c, s, Act(i)) && s.workers[i].script[0].Visit?
    ensures var o := Target(c.heap, s.workers[i].script[0].slot);
            o < |c.heap| && Reachable(c.heap, Sources(c, roots, start), o)
  {
    var slot := s.workers[i].script[0].slot;
    HeadIsExpected(c, roots, start, s, i);
    if slot.obj in s.marked {
      ReachableStep(c.heap, Sources(c, roots, start), slot);
    } else {
      assert IsLeftTarget(c, roots, start, Target(c.heap, slot));
      SourceIsReachable(c.heap, Sources(c, roots, start), Target(c.heap, slot));
    }
  }

  lemma MarkedStep(c: Config, roots: set<nat>, start: State, s: State, step: Step)
    requires Inv(c, roots, start, s) && Enabled(c, s, step) && ConfigOk(c)
    ensures MarkedReachable(c, roots, Sources(c, roots, start), Apply(c, s, step))
    ensures VisitedMarked(c, Apply(c, s, step))
  {
    hide Reachable, Sources, LeftTargets;
    if step.Act? && s.workers[step.i].script[0].Visit? {
      TargetIsReachable(c, roots, start, s, step.i);
    } else {
      MarksOnlyByVisit(c, s, step);
    }
  }

  lemma InvStep(c: Config, roots: set<nat>, start: State, s: State, step: Step)
    requires ConfigOk(c) && MarkTermination.Inv(s) && Inv(c, roots, start, s) && Enabled(c, s, step)
    ensures Inv(c, roots, start, Apply(c, s, step))
  {
    QueuesOkStep(c, s, step);
    MarkedStep(c, roots, start, s, step);
    forall slot: Slot
      ensures Balanced(c, Apply(c, s, step), slot, LeftOver(c, roots, start, slot))
    {
      BalanceStep(c, s, step, slot, LeftOver(c, roots, start, slot));
    }
  }

  lemma InvInit(c: Config, roots: set<nat>, s: State)
    requires Started(c, roots, s)
    ensures Inv(c, roots, s, s)
  {
    forall o | o in roots
      ensures Reachable(c.heap, Sources(c, roots, s), o)
    {
      SourceIsReachable(c.heap, Sources(c, roots, s), o);
    }
  }

  lemma {:induction false} InvRun(c: Config, roots: set<nat>, states: seq<State>, steps: seq<Step>, k: nat)
    requires ConfigOk(c) && IsRun(c, roots, states, steps) && k < |states|
    ensures Inv(c, roots, states[0], states[k])
  {
    hide Apply, Enabled;
    if k == 0 {
      InvInit(c, roots, states[0]);
    } else {
      InvRun(c, roots, states, steps, k - 1);
      MarkTermination.InvRun(c, roots, states, steps, k - 1);
      InvStep(c, roots, states[0], states[k - 1], steps[k - 1]);
    }
  }

  // ---------------------------------------------------------------------------------------------
  // Exactness
  // ---------------------------------------------------------------------------------------------

  lemma {:induction false} NothingPending(h: Heap, ws: seq<Worker>, slot: Slot)
    requires forall i :: 0 <= i < |ws| ==> ws[i].local == [] && ws[i].deque == [] && ws[i].script == []
    ensures WorkersCount(h, ws, slot) == 0
  {
    if ws != [] {
      NothingPending(h, ws[1..], slot);
    }
  }

  /** Everything is done: each slot was visited as often as its object and the left-over work ask for. */
  lemma AllVisited(c: Config, roots: set<nat>, start: State, s: State, slot: Slot)
    requires Inv(c, roots, start, s) && MarkTermination.AllDone(s)
    ensures s.visited[slot] == Bit(ValidSlot(c.heap, slot) && slot.obj in s.marked) + LeftOver(c, roots, start, slot)
  {
    NothingPending(c.heap, s.workers, slot);
    assert Balanced(c, s, slot, LeftOver(c, roots, start, slot));
  }

  lemma MarkedIsClosed(c: Config, roots: set<nat>, start: State, s: State)
    requires Inv(c, roots, start, s) && MarkTermination.AllDone(s) && Started(c, roots, start)
    ensures forall slot: Slot :: ValidSlot(c.heap, slot) && slot.Ref? && slot.obj in s.marked ==>
              Target(c.heap, slot) in s.marked
    ensures forall r :: r in Sources(c, roots, start) ==> r in s.marked
  {
    hide MarkTermination.AllDone, Pending, QueuesOk;
    forall slot: Slot | ValidSlot(c.heap, slot) && slot.Ref? && slot.obj in s.marked
      ensures Target(c.heap, slot) in s.marked
    {
      AllVisited(c, roots, start, s, slot);
      assert LeftOver(c, roots, start, slot) >= 0;
      assert slot in s.visited;
    }
    forall r | r in LeftTargets(c, roots, start) ensures r in s.marked {
      var slot: Slot :| LeftOver(c, roots, start, slot) > 0 && slot.Ref? && ValidSlot(c.heap, slot) &&
                        Target(c.heap, slot) == r;
      AllVisited(c, roots, start, s, slot);
      assert slot in s.visited;
    }
  }

  /**
   * In every run from any start, once a worker has left, the marked objects are exactly those reachable from the roots
   * and from the targets of left-over work, and every slot was visited once for its object, if that is marked, and
   * once for each time it was left over.
   */
  lemma MarkingFromLeftOvers(c: Config, roots: set<nat>, states: seq<State>, steps: seq<Step>, k: nat, i: nat)
    requires ConfigOk(c) && IsRun(c, roots, states, steps)
    requires k < |states| && i < |states[k].workers| && states[k].workers[i].phase.Exited?
    ensures forall o: nat :: o in states[k].marked <==> Reachable(c.heap, Sources(c, roots, states[0]), o)
    ensures forall slot: Slot ::
              states[k].visited[slot] ==
                Bit(ValidSlot(c.heap, slot) && slot.obj in states[k].marked) + LeftOver(c, roots, states[0], slot)
  {
    hide Apply, Enabled, LeftOver, Sources;
    var s, sources := states[k], Sources(c, roots, states[0]);
    MarkTermination.TerminationIsSafe(c, roots, states, steps, k, i);
    InvRun(c, roots, states, steps, k);
    forall slot: Slot
      ensures s.visited[slot] ==
              Bit(ValidSlot(c.heap, slot) && slot.obj in s.marked) + LeftOver(c, roots, states[0], slot)
    {
      AllVisited(c, roots, states[0], s, slot);
    }
    MarkedIsClosed(c, roots, states[0], s);
    forall o: nat | Reachable(c.heap, sources, o)
      ensures o in s.marked
    {
      var path :| PathTo(c.heap, sources, path, o);
      ClosedHoldsPath(c.heap, sources, s.marked, path, o);
    }
  }

  /** Reachable sources reach nothing new. */
  lemma SameReach(h: Heap, roots: set<nat>, sources: set<nat>, o: nat)
    requires WellFormed(h) && roots <= sources
    requires forall t :: t in sources && t < |h| ==> Reachable(h, roots, t)
    ensures Reachable(h, sources, o) <==> Reachable(h, roots, o)
  {
    var closed := set x: nat | x < |h| && Reachable(h, roots, x);
    if Reachable(h, sources, o) {
      forall slot: Slot | ValidSlot(h, slot) && slot.Ref? && slot.obj in closed ensures Target(h, slot) in closed {
        ReachableStep(h, roots, slot);
      }
      var path :| PathTo(h, sources, path, o);
      ClosedHoldsPath(h, sources, closed, path, o);
    }
    if Reachable(h, roots, o) {
      var path :| PathTo(h, roots, path, o);
      MoreRoots(h, roots, sources, path, o);
    }
  }

  lemma {:induction false} MoreRoots(h: Heap, roots: set<nat>, sources: set<nat>, path: seq<Slot>, o: nat)
    requires PathTo(h, roots, path, o) && roots <= sources
    ensures PathTo(h, sources, path, o)
    decreases |path|
  {
    if path != [] {
      MoreRoots(h, roots, sources, path[..|path| - 1], path[|path| - 1].obj);
    }
  }

  /** Marking is exact if and only if every object that left-over work points to is reachable from the roots. */
  lemma MarkingExactIff(c: Config, roots: set<nat>, states: seq<State>, steps: seq<Step>, k: nat, i: nat)
    requires ConfigOk(c) && IsRun(c, roots, states, steps)
    requires k < |states| && i < |states[k].workers| && states[k].workers[i].phase.Exited?
    ensures (forall o: nat :: o in states[k].marked <==> Reachable(c.heap, roots, o)) <==>
            (forall t :: t in LeftTargets(c, roots, states[0]) ==> Reachable(c.heap, roots, t))
  {
    MarkingFromLeftOvers(c, roots, states, steps, k, i);
    assert forall r :: r in roots ==> r < |c.heap|;
    hide IsRun, Reachable;
    var targets, sources := LeftTargets(c, roots, states[0]), Sources(c, roots, states[0]);
    forall r | r in roots ensures Reachable(c.heap, roots, r) {
      SourceIsReachable(c.heap, roots, r);
    }
    forall t | t in targets ensures t in states[k].marked {
      SourceIsReachable(c.heap, sources, t);
    }
    if forall t :: t in targets ==> Reachable(c.heap, roots, t) {
      forall o: nat ensures o in states[k].marked <==> Reachable(c.heap, roots, o) {
        SameReach(c.heap, roots, sources, o);
      }
    }
  }

  /** Every slot of a reachable object, and no other, is visited exactly once if and only if nothing was left over. */
  lemma VisitedOnceIff(c: Config, roots: set<nat>, states: seq<State>, steps: seq<Step>, k: nat, i: nat)
    requires ConfigOk(c) && IsRun(c, roots, states, steps)
    requires k < |states| && i < |states[k].workers| && states[k].workers[i].phase.Exited?
    ensures (forall slot: Slot ::
               states[k].visited[slot] == Bit(ValidSlot(c.heap, slot) && Reachable(c.heap, roots, slot.obj))) <==>
            Seeded(c, roots, states[0])
  {
    MarkingFromLeftOvers(c, roots, states, steps, k, i);
    assert Started(c, roots, states[0]);
    MarkingExactIff(c, roots, states, steps, k, i);
    hide IsRun, Reachable, Pending, QueuesOk;
    if Seeded(c, roots, states[0]) {
      assert LeftTargets(c, roots, states[0]) == {};
    } else {
      var slot: Slot :| LeftOver(c, roots, states[0], slot) > 0;
      ReachableIsMarked(c, roots, states, k, slot.obj);
      assert states[k].visited[slot] != Bit(ValidSlot(c.heap, slot) && Reachable(c.heap, roots, slot.obj));
    }
  }

  lemma ReachableIsMarked(c: Config, roots: set<nat>, states: seq<State>, k: nat, o: nat)
    requires |states| > 0 && k < |states|
    requires forall x: nat :: x in states[k].marked <==> Reachable(c.heap, Sources(c, roots, states[0]), x)
    ensures Reachable(c.heap, roots, o) ==> o in states[k].marked
  {
    if Reachable(c.heap, roots, o) {
      var path :| PathTo(c.heap, roots, path, o);
      MoreRoots(c.heap, roots, Sources(c, roots, states[0]), path, o);
    }
  }

  /**
   * With nothing left over: once a worker has left, the marked objects are exactly the reachable ones, every one of
   * them was scanned exactly once, each of its pointers was visited exactly once, and nothing else was touched.
   */
  lemma MarkingIsExact(c: Config, roots: set<nat>, states: seq<State>, steps: seq<Step>, k: nat, i: nat)
    requires ConfigOk(c) && IsRun(c, roots, states, steps) && Seeded(c, roots, states[0])
    requires k < |states| && i < |states[k].workers| && states[k].workers[i].phase.Exited?
    ensures forall o: nat :: o in states[k].marked <==> Reachable(c.heap, roots, o)
    ensures forall slot: Slot ::
              states[k].visited[slot] == Bit(ValidSlot(c.heap, slot) && Reachable(c.heap, roots, slot.obj))
  {
    VisitedOnceIff(c, roots, states, steps, k, i);
    MarkingExactIff(c, roots, states, steps, k, i);
    assert LeftTargets(c, roots, states[0]) == {};
  }

  /** At any time only what the sources reach is marked and no slot is visited more often than at the end. */
  lemma MarkingIsSafe(c: Config, roots: set<nat>, states: seq<State>, steps: seq<Step>, k: nat, slot: Slot)
    requires ConfigOk(c) && IsRun(c, roots, states, steps) && k < |states|
    ensures forall o :: o in states[k].marked ==> Reachable(c.heap, Sources(c, roots, states[0]), o)
    ensures states[k].visited[slot] <= 1 + LeftOver(c, roots, states[0], slot)
  {
    InvRun(c, roots, states, steps, k);
    assert Balanced(c, states[k], slot, LeftOver(c, roots, states[0], slot));
  }

  // ---------------------------------------------------------------------------------------------
  // Root processing
  // ---------------------------------------------------------------------------------------------

  /** `MarkingContext::visit` over a list of roots: each unmarked root is marked and pushed to the injector. */
  function SeedRoots(roots: seq<nat>): (set<nat>, seq<Task>) {
    if roots == [] then ({}, [])
    else
      var n := |roots| - 1;
      var (marked, tasks) := SeedRoots(roots[..n]);
      if roots[n] in marked then (marked, tasks) else (marked + {roots[n]}, tasks + [ObjTask(roots[n])])
  }

  lemma {:induction false} SeedRootsCount(h: Heap, roots: seq<nat>, slot: Slot)
    requires forall r :: r in roots ==> r < |h|
    ensures SeedRoots(roots).0 == set r | r in roots
    ensures TasksOk(h, SeedRoots(roots).1)
    ensures TaskCount(h, SeedRoots(roots).1, slot) == Bit(ValidSlot(h, slot) && slot.obj in roots)
  {
    if roots != [] {
      var n := |roots| - 1;
      assert roots == roots[..n] + [roots[n]];
      assert forall r :: r in roots[..n] ==> r in roots;
      SeedRootsCount(h, roots[..n], slot);
      TaskCountOne(h, SeedRoots(roots[..n]).1, ObjTask(roots[n]), slot);
    }
  }

  function FreshWorker(): Worker { Worker([], [], [], 0, Popping(Local, 0)) }

  function StartState(n: nat, roots: seq<nat>): State {
    State(seq(n, _ => FreshWorker()), SeedRoots(roots).1, n, SeedRoots(roots).0, multiset{})
  }

  /** A cleared bitmap, empty queues and sequential root processing give a state that runs start from. */
  lemma StartIsSeeded(c: Config, n: nat, roots: seq<nat>)
    requires n >= 1 && forall r :: r in roots ==> r < |c.heap|
    ensures Seeded(c, (set r | r in roots), StartState(n, roots))
  {
    hide Pending, QueuesOk, ValidSlot, SeedRoots;
    var s, rs := StartState(n, roots), set r | r in roots;
    StartQueues(c, n, roots);
    SeedRootsCount(c.heap, roots, Scan(0));
    forall slot: Slot ensures LeftOver(c, rs, s, slot) == 0 {
      StartPending(c, n, roots, slot);
    }
  }

  lemma StartQueues(c: Config, n: nat, roots: seq<nat>)
    requires forall r :: r in roots ==> r < |c.heap|
    ensures QueuesOk(c.heap, StartState(n, roots))
  {
    hide SeedRoots, TaskOk;
    SeedRootsCount(c.heap, roots, Scan(0));
  }

  lemma StartPending(c: Config, n: nat, roots: seq<nat>, slot: Slot)
    requires forall r :: r in roots ==> r < |c.heap|
    ensures Pending(c.heap, StartState(n, roots), slot) == Bit(ValidSlot(c.heap, slot) && slot.obj in roots)
  {
    hide SeedRoots, TaskOk, TaskCount, WorkersCount, ValidSlot;
    SeedRootsCount(c.heap, roots, slot);
    NothingPending(c.heap, StartState(n, roots).workers, slot);
  }
}

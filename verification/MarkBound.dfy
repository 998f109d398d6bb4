/** Marking does a bounded amount of work, whatever the interleaving. */
module MarkBound {
  import opened HeapGraph
  import opened MarkScript
  import opened ParallelMark
  import MarkTermination
  import MarkExact

  /** The steps that do work: taking a task, running its script, finishing it. */
  predicate WorkStep(s: State, step: Step)
    requires step.i < |s.workers|
  {
    match step
    case PopLocal(i) => s.workers[i].local != []
    case PopDeque(i) => s.workers[i].deque != []
    case PopInjector(_, _) => s.injector != []
    case StealFrom(_, v, _) => v < |s.workers| && s.workers[v].deque != []
    case Act(_) => true
    case Finish(_) => true
    case Decrease(_) => false
    case Wake(_) => false
    case Rejoin(_) => false
  }

  function WorkerWeight(h: Heap, w: Worker): nat
    requires TasksOk(h, w.local) && TasksOk(h, w.deque) && ScriptOk(h, w.script)
  {
    TasksWeight(h, w.local, 1) + TasksWeight(h, w.deque, 0) + ScriptWeight(h, w.script) + Bit(w.phase.Running?)
  }

  ghost predicate WorkersOk(h: Heap, ws: seq<Worker>) {
    forall i :: 0 <= i < |ws| ==> TasksOk(h, ws[i].local) && TasksOk(h, ws[i].deque) && ScriptOk(h, ws[i].script)
  }

  ghost function WorkersWeight(h: Heap, ws: seq<Worker>): nat
    requires WorkersOk(h, ws)
  {
    if ws == [] then 0 else WorkerWeight(h, ws[0]) + WorkersWeight(h, ws[1..])
  }

  /** What the unmarked objects below `n` may still cost. */
  function UnmarkedWeight(h: Heap, marked: set<nat>, n: nat): nat
    requires n <= |h|
  {
    if n == 0 then 0
    else UnmarkedWeight(h, marked, n - 1) + (if n - 1 in marked then 0 else TaskWeight(h, ObjTask(n - 1)) + 3)
  }

  ghost function Potential(c: Config, s: State): nat
    requires QueuesOk(c.heap, s)
  {
    UnmarkedWeight(c.heap, s.marked, |c.heap|) + TasksWeight(c.heap, s.injector, 0) + WorkersWeight(c.heap, s.workers)
  }

  lemma {:induction false} WeightUpdate(h: Heap, ws: seq<Worker>, i: nat, w: Worker)
    requires WorkersOk(h, ws) && i < |ws|
    requires TasksOk(h, w.local) && TasksOk(h, w.deque) && ScriptOk(h, w.script)
    ensures WorkersOk(h, ws[i := w])
    ensures WorkersWeight(h, ws[i := w]) == WorkersWeight(h, ws) - WorkerWeight(h, ws[i]) + WorkerWeight(h, w)
  {
    if i == 0 {
      assert ws[i := w][1..] == ws[1..];
    } else {
      assert ws[i := w][1..] == ws[1..][i - 1 := w];
      WeightUpdate(h, ws[1..], i - 1, w);
    }
  }

  lemma {:induction false} MarkOne(h: Heap, marked: set<nat>, o: nat, n: nat)
    requires n <= |h| && o < |h| && o !in marked
    ensures UnmarkedWeight(h, marked, n)
         == UnmarkedWeight(h, marked + {o}, n) + (if o < n then TaskWeight(h, ObjTask(o)) + 3 else 0)
  {
    if n > 0 {
      MarkOne(h, marked, o, n - 1);
    }
  }

  lemma TasksWeightBatch(h: Heap, ts: seq<Task>, batch: nat)
    requires TasksOk(h, ts) && batch < |ts|
    ensures TasksOk(h, ts[1..batch + 1]) && TasksOk(h, ts[batch + 1..])
    ensures TasksWeight(h, ts, 0)
         == TaskWeight(h, ts[0]) + TasksWeight(h, ts[1..batch + 1], 0) + TasksWeight(h, ts[batch + 1..], 0)
  {
    var first, moved, rest := [ts[0]], ts[1..batch + 1], ts[batch + 1..];
    assert ts == first + moved + rest;
    TasksWeightConcat(h, first, moved, 0);
    TasksWeightConcat(h, first + moved, rest, 0);
    assert first[..0] == [] && TasksWeight(h, first, 0) == TaskWeight(h, ts[0]);
  }

  lemma TasksWeightOne(h: Heap, ts: seq<Task>, t: Task, extra: nat)
    requires TasksOk(h, ts) && TaskOk(h, t)
    ensures TasksOk(h, ts + [t])
    ensures TasksWeight(h, ts + [t], extra) == TasksWeight(h, ts, extra) + TaskWeight(h, t) + extra
  {
    assert (ts + [t])[..|ts|] == ts;
  }

  /** Taking hold of a task loses at least one unit of its weight. */
  lemma BeginWeight(c: Config, s: State, i: nat, w: Worker, t: Task, work: nat)
    requires ConfigOk(c) && QueuesOk(c.heap, s) && i < |s.workers| && TaskOk(c.heap, t)
    requires TasksOk(c.heap, w.local) && TasksOk(c.heap, w.deque) && w.script == [] && !w.phase.Running?
    ensures QueuesOk(c.heap, Begin(c, s, i, w, t, work))
    ensures Potential(c, Begin(c, s, i, w, t, work))
          < Potential(c, s) - WorkerWeight(c.heap, s.workers[i]) + WorkerWeight(c.heap, w) + TaskWeight(c.heap, t)
  {
    ScriptLighter(c.heap, t);
    WeightUpdate(c.heap, s.workers, i, w.(script := Script(c.heap, t), phase := Running(work)));
  }

  lemma PhaseWeight(c: Config, s: State, i: nat, phase: Phase)
    requires QueuesOk(c.heap, s) && i < |s.workers|
    ensures QueuesOk(c.heap, Put(s, i, s.workers[i].(phase := phase)))
    ensures Potential(c, Put(s, i, s.workers[i].(phase := phase)))
         == Potential(c, s) - Bit(s.workers[i].phase.Running?) + Bit(phase.Running?)
  {
    WeightUpdate(c.heap, s.workers, i, s.workers[i].(phase := phase));
  }

  lemma TasksWeightPop(h: Heap, ts: seq<Task>, extra: nat)
    requires TasksOk(h, ts) && ts != []
    ensures TasksOk(h, ts[..|ts| - 1]) && TaskOk(h, ts[|ts| - 1])
    ensures TasksWeight(h, ts, extra) == TasksWeight(h, ts[..|ts| - 1], extra) + TaskWeight(h, ts[|ts| - 1]) + extra
  {
  }

  lemma PopLocalWeight(c: Config, s: State, i: nat)
    requires ConfigOk(c) && QueuesOk(c.heap, s) && Enabled(c, s, PopLocal(i)) && s.workers[i].script == []
    requires s.workers[i].local != []
    ensures QueuesOk(c.heap, DoPopLocal(c, s, i)) && Potential(c, DoPopLocal(c, s, i)) < Potential(c, s)
  {
    hide Script, TasksWeight, TaskWeight, TaskOk, Potential, ScriptWeight;
    var w := s.workers[i];
    TasksWeightPop(c.heap, w.local, 1);
    var shorter := w.(local := w.local[..|w.local| - 1]);
    BeginWeight(c, s, i, shorter, w.local[|w.local| - 1], w.phase.work);
  }

  lemma PopDequeWeight(c: Config, s: State, i: nat)
    requires ConfigOk(c) && QueuesOk(c.heap, s) && Enabled(c, s, PopDeque(i)) && s.workers[i].script == []
    requires s.workers[i].deque != []
    ensures QueuesOk(c.heap, DoPopDeque(c, s, i)) && Potential(c, DoPopDeque(c, s, i)) < Potential(c, s)
  {
    hide Script, TasksWeight, TaskWeight, TaskOk, Potential, ScriptWeight;
    var w := s.workers[i];
    TasksWeightPop(c.heap, w.deque, 0);
    var shorter := w.(deque := w.deque[..|w.deque| - 1]);
    BeginWeight(c, s, i, shorter, w.deque[|w.deque| - 1], w.phase.work);
  }

  lemma PopInjectorWeight(c: Config, s: State, i: nat, batch: nat)
    requires ConfigOk(c) && QueuesOk(c.heap, s) && Enabled(c, s, PopInjector(i, batch))
    requires s.workers[i].script == [] && s.injector != []
    ensures QueuesOk(c.heap, DoPopInjector(c, s, i, batch))
    ensures Potential(c, DoPopInjector(c, s, i, batch)) < Potential(c, s)
  {
    var w, moved := s.workers[i], s.injector[1..batch + 1];
    TasksWeightBatch(c.heap, s.injector, batch);
    TasksWeightConcat(c.heap, w.deque, moved, 0);
    BeginWeight(c, s.(injector := s.injector[batch + 1..]), i, w.(deque := w.deque + moved),
                s.injector[0], w.phase.work);
  }

  lemma StealWeight(c: Config, s: State, i: nat, v: nat, batch: nat)
    requires ConfigOk(c) && QueuesOk(c.heap, s) && Enabled(c, s, StealFrom(i, v, batch))
    requires s.workers[i].script == [] && s.workers[v].deque != []
    ensures QueuesOk(c.heap, DoSteal(c, s, i, v, batch))
    ensures Potential(c, DoSteal(c, s, i, v, batch)) < Potential(c, s)
  {
    var w, victim := s.workers[i], s.workers[v];
    var shorter, moved := victim.(deque := victim.deque[batch + 1..]), victim.deque[1..batch + 1];
    TasksWeightBatch(c.heap, victim.deque, batch);
    TasksWeightConcat(c.heap, w.deque, moved, 0);
    WeightUpdate(c.heap, s.workers, v, shorter);
    BeginWeight(c, Put(s, v, shorter), i, w.(deque := w.deque + moved), victim.deque[0], w.phase.work);
  }

  lemma ScriptWeightTail(h: Heap, acts: seq<Action>)
    requires ScriptOk(h, acts) && acts != []
    ensures ScriptOk(h, acts[1..]) && ActionOk(h, acts[0])
    ensures ScriptWeight(h, acts) == ActionWeight(h, acts[0]) + ScriptWeight(h, acts[1..])
  {
  }

  lemma ScriptWeightSpill(h: Heap, n: nat, rest: seq<Action>)
    requires ScriptOk(h, rest)
    ensures ScriptOk(h, [Spill(n)] + rest) && ScriptWeight(h, [Spill(n)] + rest) == 1 + ScriptWeight(h, rest)
  {
    assert ([Spill(n)] + rest)[1..] == rest;
  }

  lemma PushWeight(h: Heap, w: Worker, t: Task)
    requires TasksOk(h, w.local) && TasksOk(h, w.deque) && ScriptOk(h, w.script)
    requires w.script != [] && w.script[0] == Push(t) && TaskOk(h, t)
    ensures var w' := PushTask(w, t);
            TasksOk(h, w'.local) && TasksOk(h, w'.deque) && ScriptOk(h, w'.script) &&
            WorkerWeight(h, w') < WorkerWeight(h, w)
  {
    hide TaskOk, TaskWeight, TasksWeight, ScriptWeight, ScriptOk, TasksOk;
    var w', rest := PushTask(w, t), w.script[1..];
    ScriptWeightTail(h, w.script);
    ScriptWeightSpill(h, (|w.local| + 1) / 2, rest);
    TasksWeightOne(h, w.local, t, 1);
    TasksWeightOne(h, w.deque, t, 0);
    if |w.local| < SEGMENT_SIZE {
      assert w'.local == w.local + [t] && w'.deque == w.deque;
      assert w'.script == rest || w'.script == [Spill((|w.local| + 1) / 2)] + rest;
    } else {
      assert w'.local == w.local && w'.deque == w.deque + [t] && w'.script == rest;
    }
    hide PushTask;
  }

  lemma ActWeight(c: Config, s: State, i: nat)
    requires ConfigOk(c) && QueuesOk(c.heap, s) && Enabled(c, s, Act(i))
    ensures QueuesOk(c.heap, DoAct(c, s, i)) && Potential(c, DoAct(c, s, i)) < Potential(c, s)
  {
    MarkExact.QueuesOkAct(c, s, i);
    var w := s.workers[i];
    var w', rest := DoAct(c, s, i).workers[i], w.script[1..];
    WeightUpdate(c.heap, s.workers, i, w');
    match w.script[0]
    case Visit(slot) =>
      var o := Target(c.heap, slot);
      if o !in s.marked {
        MarkOne(c.heap, s.marked, o, |c.heap|);
        assert w'.script[1..] == rest;
      }
    case Push(t) => PushWeight(c.heap, w, t);
    case Spill(target) =>
      if |w.local| > target {
        TasksWeightOne(c.heap, s.injector, w.local[|w.local| - 1], 0);
      }
  }

  /** A work step lowers the potential; any other step leaves it as it is. */
  lemma PotentialStep(c: Config, s: State, step: Step)
    requires ConfigOk(c) && QueuesOk(c.heap, s) && MarkTermination.Inv(s) && Enabled(c, s, step)
    ensures QueuesOk(c.heap, Apply(c, s, step))
    ensures Potential(c, Apply(c, s, step)) <= Potential(c, s) - Bit(WorkStep(s, step))
  {
    hide DoPopLocal, DoPopDeque, DoPopInjector, DoSteal, DoAct, DoFinish, DoDecrease, DoWake, DoRejoin, Potential;
    if step.Act? {
      ActWeight(c, s, step.i);
    } else if step.StealFrom? && WorkStep(s, step) {
      StealWeight(c, s, step.i, step.victim, step.batch);
    } else if step.PopInjector? && WorkStep(s, step) {
      PopInjectorWeight(c, s, step.i, step.batch);
    } else if step.PopLocal? && WorkStep(s, step) {
      PopLocalWeight(c, s, step.i);
    } else if step.PopDeque? && WorkStep(s, step) {
      PopDequeWeight(c, s, step.i);
    } else {
      IdleWeight(c, s, step);
    }
  }

  lemma IdleWeight(c: Config, s: State, step: Step)
    requires QueuesOk(c.heap, s) && Enabled(c, s, step) && (!WorkStep(s, step) || step.Finish?)
    ensures QueuesOk(c.heap, Apply(c, s, step))
    ensures Potential(c, Apply(c, s, step)) <= Potential(c, s) - Bit(WorkStep(s, step))
  {
    hide Script, TaskOk, ActionOk;
    PhaseWeight(c, s, step.i, Apply(c, s, step).workers[step.i].phase);
  }

  ghost function WorkSteps(states: seq<State>, steps: seq<Step>, k: nat): nat
    requires k <= |steps| <= |states| && forall j :: 0 <= j < |steps| ==> steps[j].i < |states[j].workers|
  {
    if k == 0 then 0 else WorkSteps(states, steps, k - 1) + Bit(WorkStep(states[k - 1], steps[k - 1]))
  }

  /** The number of work steps of a run is bounded by the potential of its first state. */
  lemma {:induction false} WorkIsBounded(c: Config, roots: set<nat>, states: seq<State>, steps: seq<Step>, k: nat)
    requires ConfigOk(c) && IsRun(c, roots, states, steps) && k <= |steps|
    ensures QueuesOk(c.heap, states[k]) && QueuesOk(c.heap, states[0])
    ensures WorkSteps(states, steps, k) + Potential(c, states[k]) <= Potential(c, states[0])
  {
    hide Apply, Enabled, Potential;
    if k > 0 {
      WorkIsBounded(c, roots, states, steps, k - 1);
      MarkTermination.InvRun(c, roots, states, steps, k - 1);
      PotentialStep(c, states[k - 1], steps[k - 1]);
    }
  }

  /** No worker is ever stuck: until it has left, some step of it is enabled. */
  lemma NoWorkerStuck(c: Config, roots: set<nat>, states: seq<State>, steps: seq<Step>, k: nat, i: nat)
    requires ConfigOk(c) && IsRun(c, roots, states, steps) && k < |states|
    requires i < |states[k].workers| && !states[k].workers[i].phase.Exited?
    ensures exists step: Step :: step.i == i && Enabled(c, states[k], step)
  {
    MarkExact.InvRun(c, roots, states, steps, k);
    MarkTermination.InvRun(c, roots, states, steps, k);
    var s := states[k];
    var w := s.workers[i];
    match w.phase
    case Popping(stage, _) =>
      match stage {
        case Local => assert Enabled(c, s, PopLocal(i));
        case Deque => assert Enabled(c, s, PopDeque(i));
        case Global => assert Enabled(c, s, PopInjector(i, 0));
        case Steal(_) =>
          var v := if i == 0 then 1 else 0;
          assert Enabled(c, s, StealFrom(i, v, 0));
      }
    case Running(_) =>
      if w.script == [] {
        assert Enabled(c, s, Finish(i));
      } else {
        assert Enabled(c, s, Act(i));
      }
    case Terminating => assert Enabled(c, s, Decrease(i));
    case Sleeping => assert Enabled(c, s, Wake(i));
    case Rejoining(_) => assert Enabled(c, s, Rejoin(i));
  }
}

/** Where mark tasks go: a search takes one exactly when it looks into a queue that has any, and no task is lost. */
module MarkTasks {
  import opened MarkScript
  import opened ParallelMark

  /** How often a queue holds task t. */
  function Often(q: seq<Task>, t: Task): nat { multiset(q)[t] }

  function Own(w: Worker, t: Task): nat { Often(w.local, t) + Often(w.deque, t) }

  function Held(ws: seq<Worker>, t: Task): nat {
    if ws == [] then 0 else Own(ws[0], t) + Held(ws[1..], t)
  }

  /** How often all queues together hold task t. */
  function Queued(s: State, t: Task): nat { Often(s.injector, t) + Held(s.workers, t) }

  lemma {:induction false} HeldUpdate(ws: seq<Worker>, i: nat, w: Worker, t: Task)
    requires i < |ws|
    ensures Held(ws[i := w], t) + Own(ws[i], t) == Held(ws, t) + Own(w, t)
  {
    hide Own;
    if i == 0 {
      assert ws[i := w][1..] == ws[1..];
    } else {
      assert ws[i := w][1..] == ws[1..][i - 1 := w];
      HeldUpdate(ws[1..], i - 1, w, t);
    }
  }

  predicate IsSearch(step: Step) { step.PopLocal? || step.PopDeque? || step.PopInjector? || step.StealFrom? }

  /** The queue a search looks into. */
  function Looked(s: State, step: Step): seq<Task>
    requires IsSearch(step) && step.i < |s.workers| && (step.StealFrom? ==> step.victim < |s.workers|)
  {
    match step
    case PopLocal(i) => s.workers[i].local
    case PopDeque(i) => s.workers[i].deque
    case PopInjector(_, _) => s.injector
    case StealFrom(_, v, _) => s.workers[v].deque
  }

  /** A worker takes its own tasks from the back and those of others from the front. */
  function Chosen(s: State, step: Step): Task
    requires IsSearch(step) && step.i < |s.workers| && (step.StealFrom? ==> step.victim < |s.workers|)
    requires Looked(s, step) != []
  {
    var q := Looked(s, step);
    if step.PopLocal? || step.PopDeque? then q[|q| - 1] else q[0]
  }

  lemma LastOff(q: seq<Task>, t: Task)
    requires q != []
    ensures Often(q, t) == Often(q[..|q| - 1], t) + Bit(t == q[|q| - 1])
  {
    assert q == q[..|q| - 1] + [q[|q| - 1]];
  }

  lemma BatchOff(q: seq<Task>, batch: nat, r: seq<Task>, t: Task)
    requires batch < |q|
    ensures Often(q, t) + Often(r, t) == Often(q[batch + 1..], t) + Often(r + q[1..batch + 1], t) + Bit(t == q[0])
  {
    assert q == [q[0]] + q[1..batch + 1] + q[batch + 1..];
  }

  /** What a search does to the queues and to its worker. */
  ghost predicate Found(c: Config, s: State, step: Step, after: State)
    requires Enabled(c, s, step) && IsSearch(step)
  {
    |after.workers| == |s.workers| && Begun(c, s, step, after.workers[step.i]) &&
    forall t: Task ::
      Queued(s, t) == Queued(after, t) + Bit(Looked(s, step) != [] && t == Chosen(s, step))
  }

  /** With an empty queue the worker looks elsewhere or gives up; else it starts on the chosen task. */
  predicate Begun(c: Config, s: State, step: Step, w: Worker)
    requires Enabled(c, s, step) && IsSearch(step)
  {
    if Looked(s, step) == [] then !w.phase.Running?
    else w.phase == Running(s.workers[step.i].phase.work) && TaskOk(c.heap, Chosen(s, step)) &&
         w.script == Script(c.heap, Chosen(s, step))
  }

  lemma LocalFound(c: Config, s: State, i: nat)
    requires Enabled(c, s, PopLocal(i))
    ensures Found(c, s, PopLocal(i), DoPopLocal(c, s, i))
  {
    hide Script, TaskOk, Held, Often;
    var q, after := s.workers[i].local, DoPopLocal(c, s, i);
    forall t: Task
      ensures Queued(s, t) == Queued(after, t) + Bit(q != [] && t == Chosen(s, PopLocal(i)))
    {
      HeldUpdate(s.workers, i, after.workers[i], t);
      if q != [] {
        LastOff(q, t);
      }
    }
  }

  lemma DequeFound(c: Config, s: State, i: nat)
    requires Enabled(c, s, PopDeque(i))
    ensures Found(c, s, PopDeque(i), DoPopDeque(c, s, i))
  {
    hide Script, TaskOk, Held, Often;
    var q, after := s.workers[i].deque, DoPopDeque(c, s, i);
    forall t: Task
      ensures Queued(s, t) == Queued(after, t) + Bit(q != [] && t == Chosen(s, PopDeque(i)))
    {
      HeldUpdate(s.workers, i, after.workers[i], t);
      if q != [] {
        LastOff(q, t);
      }
    }
  }

  lemma InjectorFound(c: Config, s: State, i: nat, batch: nat)
    requires Enabled(c, s, PopInjector(i, batch))
    ensures Found(c, s, PopInjector(i, batch), DoPopInjector(c, s, i, batch))
  {
    hide Script, TaskOk, Held, Often;
    var q, after := s.injector, DoPopInjector(c, s, i, batch);
    forall t: Task
      ensures Queued(s, t) == Queued(after, t) + Bit(q != [] && t == Chosen(s, PopInjector(i, batch)))
    {
      HeldUpdate(s.workers, i, after.workers[i], t);
      if q != [] {
        BatchOff(q, batch, s.workers[i].deque, t);
      }
    }
  }

  /** A steal changes the queues of two workers. */
  lemma StealMoves(c: Config, s: State, i: nat, v: nat, batch: nat, t: Task)
    requires Enabled(c, s, StealFrom(i, v, batch))
    ensures var after := DoSteal(c, s, i, v, batch);
            |after.workers| == |s.workers| && after.injector == s.injector &&
            Held(after.workers, t) + Own(s.workers[i], t) + Own(s.workers[v], t)
            == Held(s.workers, t) + Own(after.workers[i], t) + Own(after.workers[v], t)
  {
    hide Script, TaskOk, Held, Own;
    var after := DoSteal(c, s, i, v, batch);
    var mid := s.workers[v := after.workers[v]];
    HeldUpdate(s.workers, v, after.workers[v], t);
    HeldUpdate(mid, i, after.workers[i], t);
    assert mid[i := after.workers[i]] == after.workers;
  }

  lemma StealFound(c: Config, s: State, i: nat, v: nat, batch: nat)
    requires Enabled(c, s, StealFrom(i, v, batch))
    ensures Found(c, s, StealFrom(i, v, batch), DoSteal(c, s, i, v, batch))
  {
    hide Script, TaskOk, Held, Often;
    var q, after := s.workers[v].deque, DoSteal(c, s, i, v, batch);
    forall t: Task
      ensures Queued(s, t) == Queued(after, t) + Bit(q != [] && t == Chosen(s, StealFrom(i, v, batch)))
    {
      StealMoves(c, s, i, v, batch, t);
      if q != [] {
        BatchOff(q, batch, s.workers[i].deque, t);
      }
    }
  }

  /**
   * In every run a search takes a task exactly when the queue it looks into holds one, and starts on it; the other
   * tasks all stay in some queue.
   */
  lemma SearchFindsIff(c: Config, roots: set<nat>, states: seq<State>, steps: seq<Step>, k: nat)
    requires IsRun(c, roots, states, steps) && k < |steps| && IsSearch(steps[k])
    ensures Enabled(c, states[k], steps[k])
    ensures Found(c, states[k], steps[k], states[k + 1])
  {
    hide Enabled, Started, Found, DoPopLocal, DoPopDeque, DoPopInjector, DoSteal;
    var s, step := states[k], steps[k];
    assert Enabled(c, s, step) && states[k + 1] == Apply(c, s, step);
    match step
    case PopLocal(i) => LocalFound(c, s, i);
    case PopDeque(i) => DequeFound(c, s, i);
    case PopInjector(i, batch) => InjectorFound(c, s, i, batch);
    case StealFrom(i, v, batch) => StealFound(c, s, i, v, batch);
  }

  /** Whether a step adds task t to the queues. */
  predicate Adds(c: Config, s: State, step: Step, t: Task)
    requires Enabled(c, s, step)
  {
    step.Act? && s.workers[step.i].script[0] == Push(t)
  }

  lemma ActQueues(c: Config, s: State, i: nat, t: Task)
    requires Enabled(c, s, Act(i))
    ensures Queued(DoAct(c, s, i), t) == Queued(s, t) + Bit(Adds(c, s, Act(i), t))
  {
    hide Script, Held, Often;
    var w := s.workers[i];
    HeldUpdate(s.workers, i, DoAct(c, s, i).workers[i], t);
    match w.script[0]
    case Visit(_) =>
    case Push(u) =>
      OneMore(w.local, u, t);
      OneMore(w.deque, u, t);
    case Spill(target) =>
      if |w.local| > target {
        LastOff(w.local, t);
        OneMore(s.injector, w.local[|w.local| - 1], t);
      }
  }

  lemma OneMore(q: seq<Task>, u: Task, t: Task)
    ensures Often(q + [u], t) == Often(q, t) + Bit(t == u)
  {
  }

  lemma PhaseQueues(c: Config, s: State, step: Step, t: Task)
    requires Enabled(c, s, step) && !IsSearch(step) && !step.Act?
    ensures Queued(Apply(c, s, step), t) == Queued(s, t)
  {
    hide Held, Often;
    HeldUpdate(s.workers, step.i, Apply(c, s, step).workers[step.i], t);
  }

  /** Every other step leaves the queues together as they are, but for the task that a push adds. */
  lemma OthersConserve(c: Config, roots: set<nat>, states: seq<State>, steps: seq<Step>, k: nat, t: Task)
    requires IsRun(c, roots, states, steps) && k < |steps| && !IsSearch(steps[k])
    ensures Enabled(c, states[k], steps[k])
    ensures Queued(states[k + 1], t) == Queued(states[k], t) + Bit(Adds(c, states[k], steps[k], t))
  {
    hide Script, Held, Started, DoAct, Queued;
    var s, step := states[k], steps[k];
    assert Enabled(c, s, step) && states[k + 1] == Apply(c, s, step);
    if step.Act? {
      ActQueues(c, s, step.i, t);
    } else {
      PhaseQueues(c, s, step, t);
    }
  }
}

/** The counting terminator is safe: a worker leaves only when no work is left anywhere. */
module MarkTermination {
  import opened MarkScript
  import opened ParallelMark

  predicate Idle(w: Worker) {
    w.phase.Sleeping? || w.phase.Rejoining? || w.phase.Exited?
  }

  /** The worker will still look at the injector before it can give up. */
  predicate Looking(w: Worker) {
    w.phase.Running? || (w.phase.Popping? && !w.phase.stage.Steal?)
  }

  /** What the phase of a worker says about its own queues. */
  predicate PhaseOk(w: Worker) {
    (!w.phase.Running? ==> w.script == []) &&
    (w.phase.Popping? && !w.phase.stage.Local? ==> w.local == []) &&
    (w.phase.Popping? && (w.phase.stage.Global? || w.phase.stage.Steal?) ==> w.deque == []) &&
    (w.phase.Terminating? || Idle(w) ==> w.local == [] && w.deque == []) &&
    (w.phase.Rejoining? ==> w.phase.seen != 0)
  }

  /** The phases a single worker never enters: it neither steals nor waits for others. */
  predicate SoloOk(w: Worker) {
    !w.phase.Sleeping? && !w.phase.Rejoining? && !(w.phase.Popping? && w.phase.stage.Steal?)
  }

  function Busy(ws: seq<Worker>): nat {
    if ws == [] then 0 else Bit(!Idle(ws[0])) + Busy(ws[1..])
  }

  ghost predicate Inv(s: State) {
    |s.workers| >= 1 &&
    (forall i :: 0 <= i < |s.workers| ==> PhaseOk(s.workers[i])) &&
    (s.injector != [] ==> exists i :: 0 <= i < |s.workers| && Looking(s.workers[i])) &&
    CounterOk(s)
  }

  lemma {:induction false} BusyUpdate(ws: seq<Worker>, i: nat, w: Worker)
    requires i < |ws|
    ensures Busy(ws[i := w]) == Busy(ws) - Bit(!Idle(ws[i])) + Bit(!Idle(w))
  {
    if i == 0 {
      assert ws[i := w][1..] == ws[1..];
    } else {
      assert ws[i := w][1..] == ws[1..][i - 1 := w];
      BusyUpdate(ws[1..], i - 1, w);
    }
  }

  lemma {:induction false} BusyZero(ws: seq<Worker>, i: nat)
    requires i < |ws| && !Idle(ws[i])
    ensures Busy(ws) > 0
  {
    if i > 0 {
      BusyZero(ws[1..], i - 1);
    }
  }

  lemma {:induction false} BusyAll(ws: seq<Worker>)
    requires forall i :: 0 <= i < |ws| ==> !Idle(ws[i])
    ensures Busy(ws) == |ws|
  {
    if ws != [] {
      BusyAll(ws[1..]);
    }
  }

  lemma InvInit(c: Config, roots: set<nat>, s: State)
    requires Started(c, roots, s)
    ensures Inv(s)
  {
    assert Looking(s.workers[0]);
    BusyAll(s.workers);
  }

  lemma TakePhaseOk(c: Config, s: State, step: Step)
    requires Enabled(c, s, step) && PhaseOk(s.workers[step.i])
    requires step.PopLocal? || step.PopDeque? || step.PopInjector?
    ensures PhaseOk(Apply(c, s, step).workers[step.i])
  {
    hide DoPopLocal, DoPopDeque, DoPopInjector;
    match step
    case PopLocal(i) => PopLocalPhaseOk(c, s, i);
    case PopDeque(i) => PopDequePhaseOk(c, s, i);
    case PopInjector(i, batch) => PopInjectorPhaseOk(c, s, i, batch);
  }

  lemma PopLocalPhaseOk(c: Config, s: State, i: nat)
    requires Enabled(c, s, PopLocal(i)) && PhaseOk(s.workers[i])
    ensures PhaseOk(DoPopLocal(c, s, i).workers[i])
  {
    hide Script, TaskOk;
  }

  lemma PopDequePhaseOk(c: Config, s: State, i: nat)
    requires Enabled(c, s, PopDeque(i)) && PhaseOk(s.workers[i])
    ensures PhaseOk(DoPopDeque(c, s, i).workers[i])
  {
    hide Script, TaskOk;
  }

  lemma PopInjectorPhaseOk(c: Config, s: State, i: nat, batch: nat)
    requires Enabled(c, s, PopInjector(i, batch)) && PhaseOk(s.workers[i])
    ensures PhaseOk(DoPopInjector(c, s, i, batch).workers[i])
  {
    hide Script, TaskOk;
  }

  lemma StealPhaseOk(c: Config, s: State, i: nat, v: nat, batch: nat)
    requires Enabled(c, s, StealFrom(i, v, batch)) && PhaseOk(s.workers[i])
    ensures PhaseOk(DoSteal(c, s, i, v, batch).workers[i])
  {
    hide Script, TaskOk;
  }

  lemma ActorPhaseOk(c: Config, s: State, step: Step)
    requires Enabled(c, s, step) && PhaseOk(s.workers[step.i])
    ensures PhaseOk(Apply(c, s, step).workers[step.i])
  {
    hide DoPopLocal, DoPopDeque, DoPopInjector, DoSteal, DoAct, TaskOk, ActionOk;
    if step.PopLocal? || step.PopDeque? || step.PopInjector? {
      TakePhaseOk(c, s, step);
    } else if step.StealFrom? {
      StealPhaseOk(c, s, step.i, step.victim, step.batch);
    } else if step.Act? {
      ActPhaseOk(c, s, step.i);
    }
  }

  lemma ActPhaseOk(c: Config, s: State, i: nat)
    requires Enabled(c, s, Act(i))
    ensures PhaseOk(DoAct(c, s, i).workers[i])
  {
    hide TaskOk, ActionOk;
    assert DoAct(c, s, i).workers[i].phase == s.workers[i].phase;
  }

  /** Every step but a successful steal changes one worker. */
  lemma OneWorkerChanges(c: Config, s: State, step: Step)
    requires Enabled(c, s, step)
    requires step.StealFrom? ==> s.workers[step.victim].deque == []
    ensures |Apply(c, s, step).workers| == |s.workers|
    ensures Apply(c, s, step).workers == s.workers[step.i := Apply(c, s, step).workers[step.i]]
  {
    hide Script, TaskOk, ActionOk, PushTask;
  }

  lemma StealChangesTwo(c: Config, s: State, i: nat, v: nat, batch: nat)
    requires Enabled(c, s, StealFrom(i, v, batch)) && s.workers[v].deque != []
    ensures |DoSteal(c, s, i, v, batch).workers| == |s.workers|
    ensures var ws := DoSteal(c, s, i, v, batch).workers;
            ws == s.workers[v := s.workers[v].(deque := ws[v].deque)][i := ws[i]]
  {
    hide Script, TaskOk;
  }

  /** A step touches only the acting worker, except that a steal shortens the victim's deque. */
  lemma OthersUntouched(c: Config, s: State, step: Step, j: nat)
    requires Enabled(c, s, step) && j < |s.workers| && j != step.i
    ensures |Apply(c, s, step).workers| == |s.workers|
    ensures var w, w' := s.workers[j], Apply(c, s, step).workers[j];
            w' == w || (w' == w.(deque := w'.deque) && w.deque != [])
  {
    hide DoPopLocal, DoPopDeque, DoPopInjector, DoSteal, DoAct, DoFinish, DoDecrease, DoWake, DoRejoin;
    if step.StealFrom? && s.workers[step.victim].deque != [] {
      StealChangesTwo(c, s, step.i, step.victim, step.batch);
    } else {
      OneWorkerChanges(c, s, step);
    }
  }

  lemma BusyStep(c: Config, s: State, step: Step)
    requires Enabled(c, s, step)
    ensures var s' := Apply(c, s, step);
            |s'.workers| == |s.workers| &&
            Busy(s'.workers) == Busy(s.workers) - Bit(!Idle(s.workers[step.i])) + Bit(!Idle(s'.workers[step.i]))
  {
    hide DoPopLocal, DoPopDeque, DoPopInjector, DoSteal, DoAct, DoFinish, DoDecrease, DoWake, DoRejoin;
    var s', i := Apply(c, s, step), step.i;
    if step.StealFrom? && s.workers[step.victim].deque != [] {
      var v := step.victim;
      StealChangesTwo(c, s, i, v, step.batch);
      var mid := s.workers[v := s.workers[v].(deque := s'.workers[v].deque)];
      BusyUpdate(s.workers, v, mid[v]);
      BusyUpdate(mid, i, s'.workers[i]);
    } else {
      OneWorkerChanges(c, s, step);
      BusyUpdate(s.workers, i, s'.workers[i]);
    }
  }

  predicate Counting(step: Step) {
    step.Decrease? || step.Wake? || step.Rejoin?
  }

  lemma TakeKeepsCounter(c: Config, s: State, step: Step)
    requires Enabled(c, s, step) && (step.PopLocal? || step.PopDeque? || step.PopInjector?)
    ensures Apply(c, s, step).active == s.active
    ensures !Idle(s.workers[step.i]) && !Idle(Apply(c, s, step).workers[step.i])
    ensures |s.workers| == 1 ==> SoloOk(Apply(c, s, step).workers[0])
  {
    hide Script, TaskOk;
  }

  lemma StealKeepsCounter(c: Config, s: State, i: nat, v: nat, batch: nat)
    requires Enabled(c, s, StealFrom(i, v, batch))
    ensures DoSteal(c, s, i, v, batch).active == s.active
    ensures !Idle(s.workers[i]) && !Idle(DoSteal(c, s, i, v, batch).workers[i])
  {
    hide Script, TaskOk;
  }

  lemma RunKeepsCounter(c: Config, s: State, step: Step)
    requires Enabled(c, s, step) && (step.Act? || step.Finish?)
    ensures Apply(c, s, step).active == s.active
    ensures !Idle(s.workers[step.i]) && !Idle(Apply(c, s, step).workers[step.i])
    ensures |s.workers| == 1 && SoloOk(s.workers[0]) ==> SoloOk(Apply(c, s, step).workers[0])
  {
    hide TaskOk;
    match step
    case Act(_) =>
    case Finish(_) =>
  }

  /** The counter moves exactly when the acting worker turns idle or busy, and a worker exits only at zero. */
  lemma ActorCounts(c: Config, s: State, step: Step)
    requires Enabled(c, s, step) && PhaseOk(s.workers[step.i])
    requires |s.workers| == 1 ==> SoloOk(s.workers[0])
    ensures var w, s' := s.workers[step.i], Apply(c, s, step);
            var w' := s'.workers[step.i];
            if |s.workers| == 1 then s'.active == s.active && SoloOk(w')
            else s'.active == s.active - Bit(!Idle(w)) + Bit(!Idle(w')) && (w'.phase.Exited? ==> s'.active == 0)
  {
    hide DoPopLocal, DoPopDeque, DoPopInjector, DoSteal, DoAct, DoFinish;
    if step.Act? || step.Finish? {
      RunKeepsCounter(c, s, step);
    } else if step.StealFrom? {
      StealKeepsCounter(c, s, step.i, step.victim, step.batch);
    } else if !Counting(step) {
      TakeKeepsCounter(c, s, step);
    }
  }

  ghost predicate CounterOk(s: State) {
    |s.workers| >= 1 &&
    if |s.workers| == 1 then s.active == 1 && SoloOk(s.workers[0])
    else s.active == Busy(s.workers) &&
         forall i :: 0 <= i < |s.workers| && s.workers[i].phase.Exited? ==> s.active == 0
  }

  lemma CounterStep(c: Config, s: State, step: Step)
    requires Inv(s) && Enabled(c, s, step)
    ensures CounterOk(Apply(c, s, step))
  {
    var s', i := Apply(c, s, step), step.i;
    BusyStep(c, s, step);
    ActorCounts(c, s, step);
    forall j | 0 <= j < |s.workers| && j != i
      ensures s'.workers[j].phase == s.workers[j].phase
    {
      OthersUntouched(c, s, step, j);
    }
    if !Idle(s.workers[i]) {
      BusyZero(s.workers, i);
    }
  }

  lemma InvStep(c: Config, s: State, step: Step)
    requires Inv(s) && Enabled(c, s, step)
    ensures Inv(Apply(c, s, step))
    ensures |Apply(c, s, step).workers| == |s.workers|
  {
    var s' := Apply(c, s, step);
    BusyStep(c, s, step);
    CounterStep(c, s, step);
    forall j | 0 <= j < |s.workers|
      ensures PhaseOk(s'.workers[j])
    {
      if j == step.i {
        ActorPhaseOk(c, s, step);
      } else {
        OthersUntouched(c, s, step, j);
      }
    }
    if s'.injector != [] {
      LookerStays(c, s, step);
    }
  }

  /** While tasks wait in the injector, somebody is still going to look there. */
  lemma LookerStays(c: Config, s: State, step: Step)
    requires Inv(s) && Enabled(c, s, step) && Apply(c, s, step).injector != []
    ensures exists j :: 0 <= j < |s.workers| == |Apply(c, s, step).workers| && Looking(Apply(c, s, step).workers[j])
  {
    var s' := Apply(c, s, step);
    var i := step.i;
    if Looking(s.workers[i]) {
      assert Looking(s'.workers[i]);
    } else {
      var j :| 0 <= j < |s.workers| && Looking(s.workers[j]);
      OthersUntouched(c, s, step, j);
      assert Looking(s'.workers[j]);
    }
  }

  lemma {:induction false} InvRun(c: Config, roots: set<nat>, states: seq<State>, steps: seq<Step>, k: nat)
    requires IsRun(c, roots, states, steps) && k < |states|
    ensures Inv(states[k]) && |states[k].workers| == |states[0].workers|
  {
    hide Apply, Enabled;
    if k == 0 {
      InvInit(c, roots, states[0]);
    } else {
      InvRun(c, roots, states, steps, k - 1);
      InvStep(c, states[k - 1], steps[k - 1]);
    }
  }

  ghost predicate AllDone(s: State) {
    s.injector == [] &&
    forall i :: 0 <= i < |s.workers| ==>
      s.workers[i].local == [] && s.workers[i].deque == [] && s.workers[i].script == [] && !s.workers[i].phase.Running?
  }

  lemma ZeroMeansDone(s: State)
    requires Inv(s) && (s.active == 0 || (|s.workers| == 1 && s.workers[0].phase.Exited?))
    ensures AllDone(s)
  {
    forall j | 0 <= j < |s.workers|
      ensures Idle(s.workers[j])
    {
      if !Idle(s.workers[j]) {
        BusyZero(s.workers, j);
      }
    }
  }

  /**
   * In every run, for any number of workers, a worker has left `run` only in states where every segment, every
   * deque and the injector are empty and nobody holds a task.
   */
  lemma TerminationIsSafe(c: Config, roots: set<nat>, states: seq<State>, steps: seq<Step>, k: nat, i: nat)
    requires IsRun(c, roots, states, steps)
    requires k < |states| && i < |states[k].workers| && states[k].workers[i].phase.Exited?
    ensures AllDone(states[k])
  {
    InvRun(c, roots, states, steps, k);
    ZeroMeansDone(states[k]);
  }

  lemma ZeroStays(c: Config, s: State, step: Step)
    requires Inv(s) && Enabled(c, s, step) && s.active == 0
    ensures Apply(c, s, step).active == 0
  {
    if !Idle(s.workers[step.i]) {
      BusyZero(s.workers, step.i);
    }
    ActorCounts(c, s, step);
  }

  /** Once the worker counter has reached zero it stays there, and no work turns up again. */
  lemma {:induction false} ZeroIsFinal(
      c: Config, roots: set<nat>, states: seq<State>, steps: seq<Step>, k: nat, m: nat)
    requires IsRun(c, roots, states, steps) && k <= m < |states| && states[k].active == 0
    ensures states[m].active == 0 && AllDone(states[m])
    decreases m - k
  {
    hide Apply, Enabled, Started, AllDone;
    InvRun(c, roots, states, steps, m);
    if k < m {
      ZeroIsFinal(c, roots, states, steps, k, m - 1);
      InvRun(c, roots, states, steps, m - 1);
      ZeroStays(c, states[m - 1], steps[m - 1]);
    }
    ZeroMeansDone(states[m]);
  }

  /** With several workers the counter is the number of busy ones, so whoever decrements it is still counted. */
  lemma CounterCounts(c: Config, roots: set<nat>, states: seq<State>, steps: seq<Step>, k: nat)
    requires IsRun(c, roots, states, steps) && k < |states|
    ensures |states[k].workers| > 1 ==> states[k].active == Busy(states[k].workers)
    ensures k < |steps| && steps[k].Decrease? ==> states[k].active >= 1
  {
    InvRun(c, roots, states, steps, k);
    if |states[k].workers| > 1 && k < |steps| && steps[k].Decrease? {
      BusyZero(states[k].workers, steps[k].i);
    }
  }
}

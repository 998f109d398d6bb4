/** What the bound on work does not rule out: workers that keep looking for work, and the step that ends it. */
module MarkIdling {
  import opened ParallelMark
  import opened MarkTermination

  predicate Executes(c: Config, s: State, steps: seq<Step>, end: State)
    decreases |steps|
  {
    if steps == [] then s == end
    else Enabled(c, s, steps[0]) && Executes(c, Apply(c, s, steps[0]), steps[1..], end)
  }

  lemma {:induction false} ExecutesConcat(c: Config, s: State, a: seq<Step>, mid: State, b: seq<Step>, end: State)
    requires Executes(c, s, a, mid) && Executes(c, mid, b, end)
    ensures Executes(c, s, a + b, end)
    decreases |a|
  {
    hide Apply, Enabled;
    if a == [] {
      assert a + b == b;
    } else {
      assert (a + b)[1..] == a[1..] + b;
      ExecutesConcat(c, Apply(c, s, a[0]), a[1..], mid, b, end);
    }
  }

  /** Nothing is left to mark anywhere. */
  predicate Quiet(s: State) {
    s.injector == [] && forall j :: 0 <= j < |s.workers| ==> s.workers[j].local == [] && s.workers[j].deque == []
  }

  function Steals(i: nat, v: nat, times: nat): seq<Step> {
    if times == 0 then [] else [StealFrom(i, v, 0)] + Steals(i, v, times - 1)
  }

  /** A worker gives up, wakes, rejoins, finds nothing anywhere and gives up again. */
  function IdleSteps(i: nat, v: nat, workers: nat): seq<Step> {
    [Decrease(i), Wake(i), Rejoin(i), PopLocal(i), PopDeque(i), PopInjector(i, 0)] + Steals(i, v, 2 * workers)
  }

  function Times(steps: seq<Step>, m: nat): seq<Step> {
    if m == 0 then [] else steps + Times(steps, m - 1)
  }

  function At(s: State, i: nat, phase: Phase): State
    requires i < |s.workers|
  {
    Put(s, i, s.workers[i].(phase := phase))
  }

  /** Fruitless attempts to steal end in another attempt to terminate. */
  lemma {:induction false} StealsExecute(c: Config, s: State, i: nat, v: nat, tries: nat)
    requires Quiet(s) && i < |s.workers| && v < |s.workers| && i != v && tries < 2 * |s.workers|
    requires s.workers[i].phase == Popping(Steal(tries), 0)
    ensures Executes(c, s, Steals(i, v, 2 * |s.workers| - tries), At(s, i, Terminating))
    decreases 2 * |s.workers| - tries
  {
    var steps := Steals(i, v, 2 * |s.workers| - tries);
    assert steps[1..] == Steals(i, v, 2 * |s.workers| - tries - 1);
    var next := Apply(c, s, steps[0]);
    if tries + 1 < 2 * |s.workers| {
      assert next == At(s, i, Popping(Steal(tries + 1), 0));
      StealsExecute(c, next, i, v, tries + 1);
      assert At(next, i, Terminating) == At(s, i, Terminating);
    } else {
      assert steps[1..] == [];
      assert next == At(s, i, Terminating);
    }
  }

  lemma LookingExecutes(c: Config, s: State, i: nat)
    requires Quiet(s) && i < |s.workers| && |s.workers| > 1 && s.workers[i].phase == Popping(Local, 0)
    ensures Executes(c, s, [PopLocal(i), PopDeque(i), PopInjector(i, 0)], At(s, i, Popping(Steal(0), 0)))
  {
    var s1 := At(s, i, Popping(Deque, 0));
    var s2 := At(s, i, Popping(Global, 0));
    var s3 := At(s, i, Popping(Steal(0), 0));
    assert Enabled(c, s, PopLocal(i)) && Apply(c, s, PopLocal(i)) == s1;
    assert Enabled(c, s1, PopDeque(i)) && Apply(c, s1, PopDeque(i)) == s2;
    assert Enabled(c, s2, PopInjector(i, 0)) && Apply(c, s2, PopInjector(i, 0)) == s3;
    OneStep(c, s2, PopInjector(i, 0), s3);
    ExecutesConcat(c, s1, [PopDeque(i)], s2, [PopInjector(i, 0)], s3);
    ExecutesConcat(c, s, [PopLocal(i)], s1, [PopDeque(i), PopInjector(i, 0)], s3);
  }

  lemma OneStep(c: Config, s: State, step: Step, next: State)
    requires Enabled(c, s, step) && Apply(c, s, step) == next
    ensures Executes(c, s, [step], next)
  {
    hide Apply, Enabled;
    assert [step][1..] == [];
  }

  lemma RejoiningExecutes(c: Config, s: State, i: nat)
    requires i < |s.workers| && |s.workers| > 1 && s.active >= 2 && s.workers[i].phase == Terminating
    ensures Executes(c, s, [Decrease(i), Wake(i), Rejoin(i)], At(s, i, Popping(Local, 0)))
  {
    hide Executes;
    var low := s.(active := s.active - 1);
    var s1 := At(low, i, Sleeping);
    var s2 := At(low, i, Rejoining(s.active - 1));
    var s3 := At(s, i, Popping(Local, 0));
    assert Enabled(c, s, Decrease(i)) && Apply(c, s, Decrease(i)) == s1;
    assert Enabled(c, s1, Wake(i)) && Apply(c, s1, Wake(i)) == s2;
    assert Enabled(c, s2, Rejoin(i)) && Apply(c, s2, Rejoin(i)) == s3;
    hide Apply, Enabled, At;
    OneStep(c, s, Decrease(i), s1);
    OneStep(c, s1, Wake(i), s2);
    OneStep(c, s2, Rejoin(i), s3);
    assert [Wake(i)] + [Rejoin(i)] == [Wake(i), Rejoin(i)];
    assert [Decrease(i)] + [Wake(i), Rejoin(i)] == [Decrease(i), Wake(i), Rejoin(i)];
    ExecutesConcat(c, s1, [Wake(i)], s2, [Rejoin(i)], s3);
    ExecutesConcat(c, s, [Decrease(i)], s1, [Wake(i), Rejoin(i)], s3);
  }

  /**
   * While another worker is still counted as busy, a worker that finds nothing can go once around and stand exactly
   * where it stood: only the fairness of the scheduler makes the protocol end.
   */
  lemma IdleCycle(c: Config, s: State, i: nat, v: nat)
    requires Quiet(s) && i < |s.workers| && v < |s.workers| && i != v
    requires s.active >= 2 && s.workers[i].phase == Terminating
    ensures Executes(c, s, IdleSteps(i, v, |s.workers|), s)
  {
    hide Executes, Apply, Enabled;
    var s3 := At(s, i, Popping(Local, 0));
    var s6 := At(s, i, Popping(Steal(0), 0));
    RejoiningExecutes(c, s, i);
    LookingExecutes(c, s3, i);
    assert At(s3, i, Popping(Steal(0), 0)) == s6;
    ExecutesConcat(c, s, [Decrease(i), Wake(i), Rejoin(i)], s3, [PopLocal(i), PopDeque(i), PopInjector(i, 0)], s6);
    StealsExecute(c, s6, i, v, 0);
    assert At(s6, i, Terminating) == s;
    var first := [Decrease(i), Wake(i), Rejoin(i)] + [PopLocal(i), PopDeque(i), PopInjector(i, 0)];
    assert first == [Decrease(i), Wake(i), Rejoin(i), PopLocal(i), PopDeque(i), PopInjector(i, 0)];
    ExecutesConcat(c, s, first, s6, Steals(i, v, 2 * |s.workers|), s);
  }

  /** Any number of times. */
  lemma {:induction false} IdleCycleRepeats(c: Config, s: State, i: nat, v: nat, m: nat)
    requires Quiet(s) && i < |s.workers| && v < |s.workers| && i != v
    requires s.active >= 2 && s.workers[i].phase == Terminating
    ensures Executes(c, s, Times(IdleSteps(i, v, |s.workers|), m), s)
  {
    if m > 0 {
      IdleCycle(c, s, i, v);
      IdleCycleRepeats(c, s, i, v, m - 1);
      ExecutesConcat(c, s, IdleSteps(i, v, |s.workers|), s, Times(IdleSteps(i, v, |s.workers|), m - 1), s);
    }
  }

  /** One busy worker is the only one exactly when the others are idle. */
  lemma {:induction false} BusyIsOne(ws: seq<Worker>, i: nat)
    requires i < |ws| && !Idle(ws[i])
    ensures Busy(ws) == 1 <==> forall j :: 0 <= j < |ws| && j != i ==> Idle(ws[j])
  {
    if i == 0 {
      BusyNone(ws[1..]);
      assert (forall j :: 0 <= j < |ws| && j != 0 ==> Idle(ws[j])) <==>
             (forall j :: 0 <= j < |ws[1..]| ==> Idle(ws[1..][j]))
      by {
        assert forall j :: 0 <= j < |ws[1..]| ==> ws[1..][j] == ws[j + 1];
        assert forall j :: 0 < j < |ws| ==> ws[j] == ws[1..][j - 1];
      }
    } else {
      BusyIsOne(ws[1..], i - 1);
      BusyZero(ws[1..], i - 1);
      assert forall j :: 0 < j < |ws| ==> ws[j] == ws[1..][j - 1];
      assert forall j :: 0 <= j < |ws[1..]| ==> ws[1..][j] == ws[j + 1];
    }
  }

  lemma {:induction false} BusyNone(ws: seq<Worker>)
    ensures Busy(ws) == 0 <==> forall j :: 0 <= j < |ws| ==> Idle(ws[j])
  {
    if ws != [] {
      BusyNone(ws[1..]);
      assert forall j :: 0 <= j < |ws[1..]| ==> ws[1..][j] == ws[j + 1];
      assert forall j :: 0 < j < |ws| ==> ws[j] == ws[1..][j - 1];
    }
  }

  /** A decrement ends the protocol exactly when every other worker is idle at that moment. */
  lemma DecreaseEndsIff(c: Config, roots: set<nat>, states: seq<State>, steps: seq<Step>, k: nat)
    requires IsRun(c, roots, states, steps) && k < |steps| && steps[k].Decrease? && |states[k].workers| > 1
    ensures steps[k].i < |states[k].workers| == |states[k + 1].workers|
    ensures states[k + 1].workers[steps[k].i].phase.Exited? <==>
            forall j :: 0 <= j < |states[k].workers| && j != steps[k].i ==> Idle(states[k].workers[j])
    ensures states[k + 1].workers[steps[k].i].phase.Exited? ==> states[k + 1].active == 0
  {
    InvRun(c, roots, states, steps, k);
    hide Started;
    var s := states[k];
    assert Enabled(c, s, steps[k]) && states[k + 1] == Apply(c, s, steps[k]);
    BusyIsOne(s.workers, steps[k].i);
  }

  /**
   * A worker that looks at the counter while idle leaves exactly when it is zero; it joins in again exactly when its
   * compare-and-exchange finds the counter as it saw it, and otherwise it tries again with the new value.
   */
  lemma IdleLeavesIff(c: Config, roots: set<nat>, states: seq<State>, steps: seq<Step>, k: nat)
    requires IsRun(c, roots, states, steps) && k < |steps| && (steps[k].Wake? || steps[k].Rejoin?)
    ensures steps[k].i < |states[k].workers| == |states[k + 1].workers|
    ensures var s, before, after := states[k], states[k].workers[steps[k].i], states[k + 1].workers[steps[k].i];
            Idle(before) && (after.phase.Exited? <==> s.active == 0) &&
            (!Idle(after) <==> steps[k].Rejoin? && s.active == before.phase.seen) &&
            (!Idle(after) ==> after.phase == Popping(Local, 0) && states[k + 1].active == s.active + 1) &&
            (Idle(after) && s.active > 0 ==> after.phase == Rejoining(s.active))
  {
    InvRun(c, roots, states, steps, k);
    hide Started, CounterOk;
    assert Enabled(c, states[k], steps[k]) && states[k + 1] == Apply(c, states[k], steps[k]);
    assert PhaseOk(states[k].workers[steps[k].i]);
  }

  /** Once the counter is zero every worker leaves in its next step, whichever that is. */
  lemma EveryoneLeaves(c: Config, roots: set<nat>, states: seq<State>, steps: seq<Step>, k: nat)
    requires IsRun(c, roots, states, steps) && k < |steps| && |states[k].workers| > 1 && states[k].active == 0
    ensures steps[k].i < |states[k].workers| == |states[k + 1].workers|
    ensures states[k + 1].workers[steps[k].i].phase.Exited? && states[k + 1].active == 0
    ensures forall j :: 0 <= j < |states[k].workers| && j != steps[k].i ==>
              states[k + 1].workers[j] == states[k].workers[j]
  {
    CounterCounts(c, roots, states, steps, k);
    BusyNone(states[k].workers);
    assert Enabled(c, states[k], steps[k]) && states[k + 1] == Apply(c, states[k], steps[k]);
    InvRun(c, roots, states, steps, k);
    hide Started, CounterOk, Busy;
    assert Idle(states[k].workers[steps[k].i]) && PhaseOk(states[k].workers[steps[k].i]);
  }
}

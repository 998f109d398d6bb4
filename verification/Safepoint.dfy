/**
 * The safepoint handshake over a protected polling page.
 *
 * Mutators poll by reading a page; while the page is armed the read faults, and the handler publishes a waiting
 * state, waits for the collection to end, restores the state and returns to the faulting read, which is then
 * executed again. Every access to shared state is one step.
 */
module Safepoint {

  const UNSAFE: int := 0
  const WAITING: int := 1
  const SAFE: int := 2

  /**
   * `Managed` runs code the collector must stop. `Polling` is about to read the page, `Faulted` has read the armed
   * page, `Waiting` has published its state and waits, `Resuming` has seen the collection end and not yet restored
   * its state, `InSafe` is inside a safe scope.
   */
  datatype Pc = Managed | Polling | Faulted | Waiting(saved: int) | Resuming(saved: int) | InSafe

  datatype Mutator = Mutator(pc: Pc, gcState: int)

  /** `SafepointSynchronize::begin` runs from `HasLock` to `Synchronized`, `end` from there back to `Outside`. */
  datatype Collector = Outside | HasLock | Arming | Scanning | Synchronized | Unlocked | Disarmed

  /** `mutators` are the registered threads, `checked` those the scan has passed. */
  datatype State = State(
    enableCount: nat, gcRunning: bool, collector: Collector, checked: set<nat>, mutators: map<nat, Mutator>)

  predicate Armed(s: State) { s.enableCount > 0 }

  /** The thread list is locked from `begin` until `end` drops the guard, just before it disarms the page. */
  predicate ListLocked(s: State) {
    s.collector.HasLock? || s.collector.Arming? || s.collector.Scanning? || s.collector.Synchronized?
  }

  datatype Step =
    | Work(t: nat)
    | Poll(t: nat)
    | ReadPage(t: nat)
    | PublishWaiting(t: nat)
    | SeeEnd(t: nat)
    | Restore(t: nat)
    | EnterSafe(t: nat)
    | LeaveSafe(t: nat)
    | Register(t: nat)
    | Unregister(t: nat)
    | LockList
    | SetRunning
    | Arm
    | Check(t: nat)
    | FinishScan
    | UnlockList
    | Disarm
    | ClearRunning

  predicate Enabled(s: State, step: Step) {
    match step
    case Work(t) => t in s.mutators && s.mutators[t].pc.Managed?
    case Poll(t) => t in s.mutators && (s.mutators[t].pc.Managed? || s.mutators[t].pc.InSafe?)
    case ReadPage(t) => t in s.mutators && s.mutators[t].pc.Polling?
    case PublishWaiting(t) => t in s.mutators && s.mutators[t].pc.Faulted?
    case SeeEnd(t) => t in s.mutators && s.mutators[t].pc.Waiting? && !s.gcRunning
    case Restore(t) => t in s.mutators && s.mutators[t].pc.Resuming?
    case EnterSafe(t) => t in s.mutators && s.mutators[t].pc.Managed?
    case LeaveSafe(t) => t in s.mutators && s.mutators[t].pc.InSafe?
    case Register(t) => t !in s.mutators && !ListLocked(s)
    case Unregister(t) => t in s.mutators && s.mutators[t].pc.InSafe? && !ListLocked(s)
    case LockList => s.collector.Outside?
    case SetRunning => s.collector.HasLock?
    case Arm => s.collector.Arming?
    case Check(t) => s.collector.Scanning? && t in s.mutators && s.mutators[t].gcState != UNSAFE
    case FinishScan => s.collector.Scanning? && forall t :: t in s.mutators ==> t in s.checked
    case UnlockList => s.collector.Synchronized?
    case Disarm => s.collector.Unlocked? && s.enableCount > 0
    case ClearRunning => s.collector.Disarmed?
  }

  function Put(s: State, t: nat, pc: Pc, gcState: int): State {
    s.(mutators := s.mutators[t := Mutator(pc, gcState)])
  }

  predicate MutatorStep(step: Step) {
    step.Work? || step.Poll? || step.ReadPage? || step.PublishWaiting? || step.SeeEnd? || step.Restore? ||
    step.EnterSafe? || step.LeaveSafe? || step.Register? || step.Unregister?
  }

  function Mutate(s: State, step: Step): State
    requires Enabled(s, step) && MutatorStep(step)
  {
    match step
    case Work(_) => s
    case Poll(t) => Put(s, t, Polling, s.mutators[t].gcState)
    case ReadPage(t) =>
      var g := s.mutators[t].gcState;
      Put(s, t, if Armed(s) then Faulted else if g == UNSAFE then Managed else InSafe, g)
    case PublishWaiting(t) => Put(s, t, Waiting(s.mutators[t].gcState), WAITING)
    case SeeEnd(t) => Put(s, t, Resuming(s.mutators[t].pc.saved), s.mutators[t].gcState)
    case Restore(t) => Put(s, t, Polling, s.mutators[t].pc.saved)
    case EnterSafe(t) => Put(s, t, InSafe, SAFE)
    case LeaveSafe(t) => Put(s, t, Polling, UNSAFE)
    case Register(t) => Put(s, t, Polling, UNSAFE)
    case Unregister(t) => s.(mutators := s.mutators - {t})
  }

  function Collect(s: State, step: Step): State
    requires Enabled(s, step) && !MutatorStep(step)
  {
    match step
    case LockList => s.(collector := HasLock)
    case SetRunning => s.(collector := Arming, gcRunning := true)
    case Arm => s.(collector := Scanning, enableCount := s.enableCount + 1, checked := {})
    case Check(t) => s.(checked := s.checked + {t})
    case FinishScan => s.(collector := Synchronized)
    case UnlockList => s.(collector := Unlocked)
    case Disarm => s.(collector := Disarmed, enableCount := s.enableCount - 1)
    case ClearRunning => s.(collector := Outside, gcRunning := false)
  }

  function Apply(s: State, step: Step): State
    requires Enabled(s, step)
  {
    if MutatorStep(step) then Mutate(s, step) else Collect(s, step)
  }

  predicate Init(s: State) {
    s.enableCount == 0 && !s.gcRunning && s.collector == Outside && s.mutators == map[]
  }

  ghost predicate IsRun(states: seq<State>, steps: seq<Step>) {
    |states| == |steps| + 1 && Init(states[0]) &&
    forall k :: 0 <= k < |steps| ==> Enabled(states[k], steps[k]) && states[k + 1] == Apply(states[k], steps[k])
  }

  // ---------------------------------------------------------------------------------------------
  // The invariant
  // ---------------------------------------------------------------------------------------------

  predicate MutatorOk(m: Mutator) {
    match m.pc
    case Managed => m.gcState == UNSAFE
    case Polling => m.gcState == UNSAFE || m.gcState == SAFE
    case Faulted => m.gcState == UNSAFE || m.gcState == SAFE
    case Waiting(saved) => m.gcState == WAITING && (saved == UNSAFE || saved == SAFE)
    case Resuming(saved) => m.gcState == WAITING && (saved == UNSAFE || saved == SAFE)
    case InSafe => m.gcState == SAFE
  }

  ghost predicate Inv(s: State) {
    (forall t :: t in s.mutators ==> MutatorOk(s.mutators[t])) &&
    s.enableCount == (if s.collector.Scanning? || s.collector.Synchronized? || s.collector.Unlocked? then 1 else 0) &&
    (s.gcRunning <==> !s.collector.Outside? && !s.collector.HasLock?) &&
    (Armed(s) ==> forall t :: t in s.checked && t in s.mutators ==> !s.mutators[t].pc.Managed?) &&
    (s.collector.Synchronized? ==> forall t :: t in s.mutators ==> t in s.checked) &&
    (s.collector.Unlocked? ==> forall t :: t in s.mutators ==> !s.mutators[t].pc.Managed?)
  }

  lemma InvMutate(s: State, step: Step)
    requires Inv(s) && Enabled(s, step) && MutatorStep(step)
    ensures Inv(Mutate(s, step))
  {
    match step
    case Work(_) =>
    case Poll(_) =>
    case ReadPage(_) =>
    case PublishWaiting(_) =>
    case SeeEnd(_) =>
    case Restore(_) =>
    case EnterSafe(_) =>
    case LeaveSafe(_) =>
    case Register(_) =>
    case Unregister(_) =>
  }

  lemma InvCollect(s: State, step: Step)
    requires Inv(s) && Enabled(s, step) && !MutatorStep(step)
    ensures Inv(Collect(s, step))
  {
  }

  lemma {:induction false} InvRun(states: seq<State>, steps: seq<Step>, k: nat)
    requires IsRun(states, steps) && k < |states|
    ensures Inv(states[k])
  {
    hide Enabled, Inv, Mutate, Collect;
    if k == 0 {
      InvInit(states[0]);
    } else {
      InvRun(states, steps, k - 1);
      var s, step := states[k - 1], steps[k - 1];
      assert states[k] == Apply(s, step);
      if MutatorStep(step) {
        InvMutate(s, step);
      } else {
        InvCollect(s, step);
      }
    }
  }

  lemma InvInit(s: State)
    requires Init(s)
    ensures Inv(s)
  {
  }

  // ---------------------------------------------------------------------------------------------
  // Main results
  // ---------------------------------------------------------------------------------------------

  /**
   * From the return of `begin` until `end` disarms the page, no registered mutator runs managed code: no managed
   * step is taken, and none is possible, whatever mix of polling, waiting, resuming and scope changes goes on.
   */
  lemma NoManagedStepInSafepoint(states: seq<State>, steps: seq<Step>, k: nat, t: nat)
    requires IsRun(states, steps) && k < |states|
    requires states[k].collector.Synchronized? || states[k].collector.Unlocked?
    ensures !Enabled(states[k], Work(t))
    ensures k < |steps| ==> steps[k] != Work(t)
  {
    hide Apply;
    InvRun(states, steps, k);
  }

  /**
   * A mutator the scan has passed stays stopped until the page is disarmed, even while its published state is restored.
   */
  lemma CheckedStaysStopped(states: seq<State>, steps: seq<Step>, k: nat, t: nat)
    requires IsRun(states, steps) && k < |states| && states[k].collector.Scanning?
    requires t in states[k].checked && t in states[k].mutators
    ensures !states[k].mutators[t].pc.Managed?
  {
    hide Apply, Enabled;
    InvRun(states, steps, k);
  }

  /**
   * The page is armed exactly from `Arm` to `Disarm`: the counter is never above one, and `Disarm` is never blocked.
   */
  lemma PageArmedExactly(states: seq<State>, steps: seq<Step>, k: nat)
    requires IsRun(states, steps) && k < |states|
    ensures Armed(states[k]) <==>
            states[k].collector.Scanning? || states[k].collector.Synchronized? || states[k].collector.Unlocked?
    ensures states[k].enableCount <= 1
    ensures states[k].collector.Unlocked? ==> Enabled(states[k], Disarm)
    ensures Armed(states[k]) ==> states[k].gcRunning
  {
    hide Apply;
    InvRun(states, steps, k);
  }

  // ---------------------------------------------------------------------------------------------
  // The handshake goes on
  // ---------------------------------------------------------------------------------------------

  /** How many steps a mutator in managed code is from the state in which the scan may pass it. */
  function ToStop(m: Mutator): nat {
    match m.pc
    case Managed => 3
    case Polling => 2
    case Faulted => 1
    case _ => 0
  }

  /** The next step of a mutator on its way to that state. */
  function Stopping(s: State, t: nat): Step
    requires t in s.mutators
  {
    match s.mutators[t].pc
    case Managed => Poll(t)
    case Polling => ReadPage(t)
    case _ => PublishWaiting(t)
  }

  /**
   * While the page is armed, the scan can pass a mutator at once unless that publishes an unsafe state; and then it is
   * at most three steps of its own away from being passed, each of which brings it closer, whatever others do.
   */
  lemma MutatorsStop(states: seq<State>, steps: seq<Step>, k: nat, t: nat)
    requires IsRun(states, steps) && k < |states| && states[k].collector.Scanning? && t in states[k].mutators
    ensures var s, next := states[k], Stopping(states[k], t);
            Enabled(s, Check(t)) ||
            (Enabled(s, next) && t in Apply(s, next).mutators &&
             ToStop(Apply(s, next).mutators[t]) < ToStop(s.mutators[t]) &&
             (ToStop(s.mutators[t]) == 1 ==> Enabled(Apply(s, next), Check(t))))
  {
    InvRun(states, steps, k);
  }

  /** No other thread's step moves a mutator. */
  lemma OnlyOwnSteps(states: seq<State>, steps: seq<Step>, k: nat, t: nat)
    requires IsRun(states, steps) && k < |steps| && t in states[k].mutators
    requires MutatorStep(steps[k]) ==> steps[k].t != t
    ensures t in states[k + 1].mutators && states[k + 1].mutators[t] == states[k].mutators[t]
  {
    assert Enabled(states[k], steps[k]) && states[k + 1] == Apply(states[k], steps[k]);
  }

  /** The steps of the collector up to the end of the collection it is in. */
  function Left(s: State): nat {
    match s.collector
    case Outside => 0
    case Disarmed => 1
    case Unlocked => 2
    case Synchronized => 3
    case Scanning => 4 + |s.mutators.Keys - s.checked|
    case Arming => 5 + |s.mutators|
    case HasLock => 6 + |s.mutators|
  }

  /** The collector passes a mutator once. */
  predicate Again(s: State, step: Step) { step.Check? && step.t in s.checked }

  lemma NoneUnchecked(s: State)
    requires forall t :: t in s.mutators ==> t in s.checked
    ensures s.mutators.Keys - s.checked == {}
  {
  }

  lemma OneLess(keys: set<nat>, checked: set<nat>, t: nat)
    requires t in keys
    ensures |keys - (checked + {t})| == |keys - checked| - if t in checked then 0 else 1
  {
    if t in checked {
      assert checked + {t} == checked;
    } else {
      assert keys - checked == (keys - (checked + {t})) + {t};
    }
  }

  /** Nobody registers or unregisters while the thread list is locked. */
  lemma KeysKept(s: State, step: Step)
    requires Enabled(s, step) && MutatorStep(step)
    ensures ListLocked(s) ==> Mutate(s, step).mutators.Keys == s.mutators.Keys
    ensures ListLocked(s) ==> |Mutate(s, step).mutators| == |s.mutators|
    ensures Mutate(s, step).collector == s.collector && Mutate(s, step).checked == s.checked
  {
    if ListLocked(s) {
      assert Mutate(s, step).mutators.Keys == s.mutators.Keys;
      assert |Mutate(s, step).mutators.Keys| == |s.mutators.Keys|;
    }
  }

  lemma MutateKeepsLeft(s: State, step: Step)
    requires Enabled(s, step) && MutatorStep(step)
    ensures Left(Mutate(s, step)) == Left(s)
  {
    KeysKept(s, step);
    hide Mutate, Enabled;
  }

  lemma CheckLowers(s: State, t: nat)
    requires Enabled(s, Check(t))
    ensures Left(Collect(s, Check(t))) == if t in s.checked then Left(s) else Left(s) - 1
  {
    OneLess(s.mutators.Keys, s.checked, t);
  }

  lemma CollectLowers(s: State, step: Step)
    requires Enabled(s, step) && !MutatorStep(step) && !step.Check?
    ensures var after := Collect(s, step);
            if step.LockList? then after.collector.HasLock? && Left(after) == 6 + |s.mutators|
            else Left(after) == Left(s) - 1
  {
    if step.Arm? {
      assert s.mutators.Keys - {} == s.mutators.Keys;
      assert |s.mutators.Keys| == |s.mutators|;
    } else if step.FinishScan? {
      NoneUnchecked(s);
    }
  }

  /**
   * Each step of the collector brings it one closer to the end, a mutator's step takes it no further away, and
   * beginning a collection takes the lock.
   */
  lemma CollectorStep(states: seq<State>, steps: seq<Step>, k: nat)
    requires IsRun(states, steps) && k < |steps|
    ensures var s, step, after := states[k], steps[k], states[k + 1];
            if step.LockList? then after.collector.HasLock? && Left(after) == 6 + |s.mutators|
            else if MutatorStep(step) || Again(s, step) then Left(after) == Left(s)
            else Left(after) == Left(s) - 1
  {
    var s, step := states[k], steps[k];
    assert Enabled(s, step) && states[k + 1] == Apply(s, step);
    hide Mutate, Collect, Enabled, Left;
    if MutatorStep(step) {
      MutateKeepsLeft(s, step);
    } else if step.Check? {
      CheckLowers(s, step.t);
    } else {
      CollectLowers(s, step);
    }
  }

  /** The step of the collector that comes next, or some step of a mutator that it waits for. */
  predicate CanGoOn(s: State) {
    match s.collector
    case Outside => Enabled(s, LockList)
    case HasLock => Enabled(s, SetRunning)
    case Arming => Enabled(s, Arm)
    case Scanning =>
      Enabled(s, FinishScan) ||
      exists t :: t in s.mutators && t !in s.checked && (Enabled(s, Check(t)) || Enabled(s, Stopping(s, t)))
    case Synchronized => Enabled(s, UnlockList)
    case Unlocked => Enabled(s, Disarm)
    case Disarmed => Enabled(s, ClearRunning)
  }

  /** The collector is never stuck: its next step is enabled, or that of a mutator it waits for. */
  lemma CollectorNeverStuck(states: seq<State>, steps: seq<Step>, k: nat)
    requires IsRun(states, steps) && k < |states|
    ensures CanGoOn(states[k])
  {
    hide Apply;
    InvRun(states, steps, k);
    var s := states[k];
    if s.collector.Scanning? && !Enabled(s, FinishScan) {
      var t :| t in s.mutators && t !in s.checked;
      MutatorsStop(states, steps, k, t);
    }
  }

  /** The steps of the collector in a stretch of a run, repeated checks aside. */
  function CollectorSteps(states: seq<State>, steps: seq<Step>, a: nat, b: nat): nat
    requires a <= b <= |steps| < |states|
    decreases b - a
  {
    if a == b then 0
    else CollectorSteps(states, steps, a, b - 1) +
         if MutatorStep(steps[b - 1]) || Again(states[b - 1], steps[b - 1]) then 0 else 1
  }

  /** From the lock to the end a collection takes exactly six steps and one for each registered mutator. */
  lemma {:induction false} CollectionIsBounded(states: seq<State>, steps: seq<Step>, a: nat, b: nat)
    requires IsRun(states, steps) && a < b <= |steps| && steps[a].LockList?
    requires forall m :: a < m < b ==> !steps[m].LockList?
    ensures CollectorSteps(states, steps, a + 1, b) + Left(states[b]) == 6 + |states[a].mutators|
    decreases b - a
  {
    hide Left, Enabled, Mutate, Collect, Apply, Again, MutatorStep;
    CollectorStep(states, steps, b - 1);
    if a + 1 < b {
      CollectionIsBounded(states, steps, a, b - 1);
    }
  }

  // ---------------------------------------------------------------------------------------------
  // Mutators go on
  // ---------------------------------------------------------------------------------------------

  /**
   * A read of the page leads a mutator back to where it polled from, managed code or its safe scope, exactly when the
   * page is not armed; otherwise it faults.
   */
  lemma PollReturnsIff(states: seq<State>, steps: seq<Step>, k: nat)
    requires IsRun(states, steps) && k < |steps| && steps[k].ReadPage?
    ensures steps[k].t in states[k].mutators && steps[k].t in states[k + 1].mutators
    ensures var before, after := states[k].mutators[steps[k].t], states[k + 1].mutators[steps[k].t];
            after.gcState == before.gcState &&
            (after.pc == Managed <==> !Armed(states[k]) && before.gcState == UNSAFE) &&
            (after.pc == InSafe <==> !Armed(states[k]) && before.gcState == SAFE) &&
            (after.pc == Faulted <==> Armed(states[k]))
  {
    InvRun(states, steps, k);
    assert Enabled(states[k], steps[k]) && states[k + 1] == Apply(states[k], steps[k]);
  }

  /** A waiting mutator may go on exactly when no collection is running. */
  lemma WaitEndsIff(states: seq<State>, steps: seq<Step>, k: nat, t: nat)
    requires IsRun(states, steps) && k < |states| && t in states[k].mutators && states[k].mutators[t].pc.Waiting?
    ensures Enabled(states[k], SeeEnd(t)) <==> states[k].collector.Outside? || states[k].collector.HasLock?
  {
    InvRun(states, steps, k);
  }

  /** A mutator between its fault and its return from the handler. */
  predicate InHandler(pc: Pc) { pc.Faulted? || pc.Waiting? || pc.Resuming? }

  /** What a mutator in the handler will restore. */
  function Saved(m: Mutator): int {
    if m.pc.Waiting? || m.pc.Resuming? then m.pc.saved else m.gcState
  }

  lemma HandlerStep(s: State, step: Step, t: nat)
    requires Enabled(s, step) && t in s.mutators && InHandler(s.mutators[t].pc)
    ensures var after := Apply(s, step);
            t in after.mutators && Saved(after.mutators[t]) == Saved(s.mutators[t]) &&
            (InHandler(after.mutators[t].pc) ||
             (step == Restore(t) && after.mutators[t] == Mutator(Polling, Saved(s.mutators[t]))))
  {
  }

  /**
   * The handler is transparent: however long a collection takes, a mutator leaves the handler only to read the page
   * again, in the state it faulted in.
   */
  lemma {:induction false} HandlerRestores(states: seq<State>, steps: seq<Step>, i: nat, k: nat, t: nat)
    requires IsRun(states, steps) && i < k <= |steps|
    requires steps[i] == ReadPage(t) && t in states[i].mutators && Armed(states[i])
    requires forall m :: i < m < k ==> t in states[m].mutators && InHandler(states[m].mutators[t].pc)
    ensures t in states[k].mutators && Saved(states[k].mutators[t]) == states[i].mutators[t].gcState
    ensures InHandler(states[k].mutators[t].pc) ||
            states[k].mutators[t] == Mutator(Polling, states[i].mutators[t].gcState)
    decreases k
  {
    assert Enabled(states[k - 1], steps[k - 1]) && states[k] == Apply(states[k - 1], steps[k - 1]);
    if i + 1 < k {
      hide Apply, Enabled;
      HandlerRestores(states, steps, i, k - 1, t);
      HandlerStep(states[k - 1], steps[k - 1], t);
    }
  }

  predicate LeadsTo(s: State, step: Step, after: State) { Enabled(s, step) && Apply(s, step) == after }

  /**
   * When the collection is over, three steps of its own lead a waiting mutator back to managed code, or to its safe
   * scope, and change nothing else.
   */
  lemma WaiterReturns(states: seq<State>, steps: seq<Step>, k: nat, t: nat)
    requires IsRun(states, steps) && k < |states| && t in states[k].mutators && states[k].mutators[t].pc.Waiting?
    requires states[k].collector.Outside?
    ensures var s, saved := states[k], states[k].mutators[t].pc.saved;
            (saved == UNSAFE || saved == SAFE) &&
            LeadsTo(s, SeeEnd(t), Put(s, t, Resuming(saved), WAITING)) &&
            LeadsTo(Put(s, t, Resuming(saved), WAITING), Restore(t), Put(s, t, Polling, saved)) &&
            LeadsTo(Put(s, t, Polling, saved), ReadPage(t),
                    Put(s, t, if saved == UNSAFE then Managed else InSafe, saved))
  {
    InvRun(states, steps, k);
    var s, saved := states[k], states[k].mutators[t].pc.saved;
    assert MutatorOk(s.mutators[t]) && !Armed(s);
    assert Put(Put(s, t, Resuming(saved), WAITING), t, Polling, saved) == Put(s, t, Polling, saved);
    var last := if saved == UNSAFE then Managed else InSafe;
    assert Put(Put(s, t, Polling, saved), t, last, saved) == Put(s, t, last, saved);
  }

  /** A poll of the page while it is not armed changes nothing at all. */
  lemma PollIsFree(states: seq<State>, steps: seq<Step>, k: nat, t: nat)
    requires IsRun(states, steps) && k < |states| && Enabled(states[k], Poll(t)) && !Armed(states[k])
    ensures LeadsTo(Apply(states[k], Poll(t)), ReadPage(t), states[k])
  {
    InvRun(states, steps, k);
    var s := states[k];
    var m := s.mutators[t];
    assert MutatorOk(m) && Apply(s, Poll(t)) == Put(s, t, Polling, m.gcState);
    assert Put(Put(s, t, Polling, m.gcState), t, m.pc, m.gcState) == s;
  }

  /** A safe scope is seen by the scan at once, and leaving it reads the page before any managed step. */
  lemma ScopesAreSeen(states: seq<State>, steps: seq<Step>, k: nat)
    requires IsRun(states, steps) && k < |steps| && (steps[k].EnterSafe? || steps[k].LeaveSafe? || steps[k].Register?)
    ensures var after, t := states[k + 1], steps[k].t;
            t in after.mutators && !Enabled(after, Work(t)) &&
            (steps[k].EnterSafe? && after.collector.Scanning? ==> Enabled(after, Check(t))) &&
            (!steps[k].EnterSafe? ==> Enabled(after, ReadPage(t)) && after.mutators[t].gcState == UNSAFE)
  {
    assert Enabled(states[k], steps[k]) && states[k + 1] == Apply(states[k], steps[k]);
  }
}

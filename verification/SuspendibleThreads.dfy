/**
 * The suspendible thread set: threads join, leave and yield under a monitor, and a collector asks for all of them
 * to be suspended. Each entry into the monitor is one step; a condition wait that wakes is another.
 */
module SuspendibleThreads {

  /**
   * `Out` is not a member. `JoinWait` waits for a suspension to end before joining. `Running` is a member at work,
   * `Asked` one that has seen `should_yield`, `Stopped` one waiting inside `yield_`.
   */
  datatype Thread = Out | JoinWait | Running | Asked | Stopped

  datatype Collector = Idle | SemWait | Synchronized

  /**
   * `signals` counts the semaphore signals since the last `synchronize`; `immediate` whether that one returned at once.
   */
  datatype State = State(
    suspendAll: bool, nthreads: int, stopped: int, sem: int, collector: Collector, threads: map<nat, Thread>,
    signals: nat, immediate: bool)

  datatype Step =
    | Join(t: nat)
    | Leave(t: nat)
    | CheckYield(t: nat)
    | Yield(t: nat)
    | Resume(t: nat)
    | Synchronize
    | AwaitSignal
    | Desynchronize

  function Get(s: State, t: nat): Thread {
    if t in s.threads then s.threads[t] else Out
  }

  function Put(s: State, t: nat, pc: Thread): State {
    s.(threads := s.threads[t := pc])
  }

  /** Callers yield only as members and after `should_yield` returned true. */
  predicate Enabled(s: State, step: Step) {
    match step
    case Join(t) => Get(s, t).Out? || Get(s, t).JoinWait?
    case Leave(t) => Get(s, t).Running?
    case CheckYield(t) => Get(s, t).Running?
    case Yield(t) => Get(s, t).Asked?
    case Resume(t) => Get(s, t).Stopped?
    case Synchronize => s.collector.Idle?
    case AwaitSignal => s.collector.SemWait? && s.sem > 0
    case Desynchronize => s.collector.Synchronized?
  }

  function SignalIf(s: State, c: bool): State {
    if c then s.(sem := s.sem + 1, signals := s.signals + 1) else s
  }

  function Apply(s: State, step: Step): State
    requires Enabled(s, step)
  {
    match step
    case Join(t) =>
      if s.suspendAll then Put(s, t, JoinWait) else Put(s, t, Running).(nthreads := s.nthreads + 1)
    case Leave(t) =>
      var s' := Put(s, t, Out).(nthreads := s.nthreads - 1);
      SignalIf(s', s.suspendAll && s'.nthreads == s'.stopped)
    case CheckYield(t) => if s.suspendAll then Put(s, t, Asked) else s
    case Yield(t) =>
      if s.suspendAll then
        var s' := Put(s, t, Stopped).(stopped := s.stopped + 1);
        SignalIf(s', s'.nthreads == s'.stopped)
      else Put(s, t, Stopped)
    case Resume(t) =>
      if s.suspendAll then s else Put(s, t, Running).(stopped := s.stopped - 1)
    case Synchronize =>
      var now := s.nthreads == s.stopped;
      s.(suspendAll := true, collector := if now then Synchronized else SemWait, signals := 0, immediate := now)
    case AwaitSignal => s.(sem := s.sem - 1, collector := Synchronized)
    case Desynchronize => s.(suspendAll := false, collector := Idle)
  }

  predicate Init(s: State) {
    s == State(false, 0, 0, 0, Idle, map[], 0, true)
  }

  ghost predicate IsRun(states: seq<State>, steps: seq<Step>) {
    |states| == |steps| + 1 && Init(states[0]) &&
    forall k :: 0 <= k < |steps| ==> Enabled(states[k], steps[k]) && states[k + 1] == Apply(states[k], steps[k])
  }

  // ---------------------------------------------------------------------------------------------
  // The invariant
  // ---------------------------------------------------------------------------------------------

  predicate IsMember(pc: Thread) { pc.Running? || pc.Asked? || pc.Stopped? }

  function Members(ts: map<nat, Thread>): set<nat> {
    set t | t in ts && IsMember(ts[t])
  }

  function StoppedSet(ts: map<nat, Thread>): set<nat> {
    set t | t in ts && ts[t].Stopped?
  }

  ghost predicate Inv(s: State) {
    s.nthreads == |Members(s.threads)| && s.stopped == |StoppedSet(s.threads)| &&
    (forall t :: t in s.threads && s.threads[t].Asked? ==> s.suspendAll) &&
    match s.collector
    case Idle => !s.suspendAll && s.sem == 0
    case SemWait =>
      s.suspendAll && !s.immediate &&
      s.sem == s.signals == if s.nthreads == s.stopped then 1 else 0
    case Synchronized =>
      s.suspendAll && s.nthreads == s.stopped && s.sem == 0 && s.signals == if s.immediate then 0 else 1
  }

  function Bit(b: bool): nat { if b then 1 else 0 }

  lemma SizeAfterMove(a: set<nat>, b: set<nat>, t: nat)
    requires forall u :: u != t ==> (u in a <==> u in b)
    ensures |b| == |a| - Bit(t in a) + Bit(t in b)
  {
    var rest := a - {t};
    assert rest == b - {t};
    assert a == rest + {t} || a == rest;
    assert b == rest + {t} || b == rest;
  }

  lemma MembersAfterPut(s: State, t: nat, pc: Thread)
    ensures |Members(s.threads[t := pc])| == |Members(s.threads)| - Bit(IsMember(Get(s, t))) + Bit(IsMember(pc))
  {
    SizeAfterMove(Members(s.threads), Members(s.threads[t := pc]), t);
  }

  lemma StoppedAfterPut(s: State, t: nat, pc: Thread)
    ensures |StoppedSet(s.threads[t := pc])| == |StoppedSet(s.threads)| - Bit(Get(s, t).Stopped?) + Bit(pc.Stopped?)
  {
    SizeAfterMove(StoppedSet(s.threads), StoppedSet(s.threads[t := pc]), t);
  }

  /** The effect of moving one thread on the sizes of the two sets. */
  lemma CountsAfterPut(s: State, t: nat, pc: Thread)
    ensures |Members(s.threads[t := pc])| == |Members(s.threads)| - Bit(IsMember(Get(s, t))) + Bit(IsMember(pc))
    ensures |StoppedSet(s.threads[t := pc])| == |StoppedSet(s.threads)| - Bit(Get(s, t).Stopped?) + Bit(pc.Stopped?)
  {
    hide Members, StoppedSet;
    MembersAfterPut(s, t, pc);
    StoppedAfterPut(s, t, pc);
  }

  /** Equal counts mean that every member is stopped. */
  lemma EqualCountsMeanStopped(s: State, t: nat)
    requires Inv(s) && s.nthreads == s.stopped && IsMember(Get(s, t))
    ensures Get(s, t).Stopped?
  {
    assert StoppedSet(s.threads) <= Members(s.threads);
    if t !in StoppedSet(s.threads) {
      assert StoppedSet(s.threads) <= Members(s.threads) - {t};
      SubsetSize(StoppedSet(s.threads), Members(s.threads) - {t});
    }
  }

  lemma {:induction false} SubsetSize(a: set<nat>, b: set<nat>)
    requires a <= b
    ensures |a| <= |b|
  {
    if a != {} {
      var x :| x in a;
      SubsetSize(a - {x}, b - {x});
    }
  }

  lemma InvJoinResume(s: State, step: Step)
    requires Inv(s) && Enabled(s, step) && (step.Join? || step.CheckYield? || step.Resume?)
    ensures Inv(Apply(s, step))
  {
    hide Members, StoppedSet;
    match step
    case Join(t) => CountsAfterPut(s, t, if s.suspendAll then JoinWait else Running);
    case CheckYield(t) => CountsAfterPut(s, t, Asked);
    case Resume(t) => CountsAfterPut(s, t, Running);
  }

  /** The last member to leave or yield signals, and only the last: while it runs, the counts differ. */
  lemma InvLeaveYield(s: State, step: Step)
    requires Inv(s) && Enabled(s, step) && (step.Leave? || step.Yield?)
    ensures Inv(Apply(s, step))
  {
    hide Members, StoppedSet;
    var t := step.t;
    CountsAfterPut(s, t, if step.Leave? then Out else Stopped);
    if s.nthreads == s.stopped {
      EqualCountsMeanStopped(s, t);
    }
  }

  lemma InvCollector(s: State, step: Step)
    requires Inv(s) && Enabled(s, step) && (step.Synchronize? || step.AwaitSignal? || step.Desynchronize?)
    ensures Inv(Apply(s, step))
  {
    if step.Desynchronize? {
      forall t | t in s.threads && IsMember(s.threads[t])
        ensures s.threads[t].Stopped?
      {
        EqualCountsMeanStopped(s, t);
      }
    }
  }

  lemma InvStep(s: State, step: Step)
    requires Inv(s) && Enabled(s, step)
    ensures Inv(Apply(s, step))
  {
    hide Apply, Inv, Enabled;
    match step
    case Join(_) => InvJoinResume(s, step);
    case Leave(_) => InvLeaveYield(s, step);
    case CheckYield(_) => InvJoinResume(s, step);
    case Yield(_) => InvLeaveYield(s, step);
    case Resume(_) => InvJoinResume(s, step);
    case Synchronize => InvCollector(s, step);
    case AwaitSignal => InvCollector(s, step);
    case Desynchronize => InvCollector(s, step);
  }

  lemma {:induction false} InvRun(states: seq<State>, steps: seq<Step>, k: nat)
    requires IsRun(states, steps) && k < |states|
    ensures Inv(states[k])
  {
    hide Apply, Enabled, Inv;
    if k == 0 {
      assert Inv(states[0]) by {
        InvInit(states[0]);
      }
    } else {
      InvRun(states, steps, k - 1);
      InvStep(states[k - 1], steps[k - 1]);
    }
  }

  lemma InvInit(s: State)
    requires Init(s)
    ensures Inv(s)
  {
    assert Members(s.threads) == {} && StoppedSet(s.threads) == {};
  }

  // ---------------------------------------------------------------------------------------------
  // Main results
  // ---------------------------------------------------------------------------------------------

  /**
   * Between the return of `synchronize` and `desynchronize` every member is stopped, and both asserts of the latter
   * hold.
   */
  lemma SynchronizedMeansStopped(states: seq<State>, steps: seq<Step>, k: nat, t: nat)
    requires IsRun(states, steps) && k < |states| && states[k].collector.Synchronized?
    ensures IsMember(Get(states[k], t)) ==> Get(states[k], t).Stopped?
    ensures states[k].suspendAll && states[k].nthreads == states[k].stopped
  {
    hide Apply, Enabled;
    InvRun(states, steps, k);
    if IsMember(Get(states[k], t)) {
      EqualCountsMeanStopped(states[k], t);
    }
  }

  /** A `synchronize` that had to wait has consumed exactly one signal when it returns, and none is left over. */
  lemma ExactlyOneSignal(states: seq<State>, steps: seq<Step>, k: nat)
    requires IsRun(states, steps) && k < |states| && states[k].collector.Synchronized?
    ensures states[k].signals == (if states[k].immediate then 0 else 1) && states[k].sem == 0
  {
    hide Apply, Enabled;
    InvRun(states, steps, k);
  }

  /** The collector cannot be forgotten: once every member is stopped its signal is there. */
  lemma WaitingCollectorIsWoken(states: seq<State>, steps: seq<Step>, k: nat)
    requires IsRun(states, steps) && k < |states| && states[k].collector.SemWait?
    ensures Enabled(states[k], AwaitSignal) <==> states[k].nthreads == states[k].stopped
  {
    hide Apply;
    InvRun(states, steps, k);
  }

  /** The unconditional decrement at the end of `yield_` never underflows. */
  lemma StoppedNeverUnderflows(states: seq<State>, steps: seq<Step>, k: nat)
    requires IsRun(states, steps) && k < |steps| && steps[k].Resume?
    ensures states[k].stopped >= 1 && states[k + 1].stopped >= 0
    ensures states[k].nthreads >= 1
  {
    InvRun(states, steps, k);
    InvRun(states, steps, k + 1);
    var s, t := states[k], steps[k].t;
    assert Enabled(s, steps[k]);
    SubsetSize({t}, StoppedSet(s.threads));
    SubsetSize({t}, Members(s.threads));
  }

  /** A yield entered while no suspension is on would underflow at once; `Asked` is what rules it out. */
  lemma YieldFindsSuspension(states: seq<State>, steps: seq<Step>, k: nat)
    requires IsRun(states, steps) && k < |steps| && steps[k].Yield?
    ensures states[k].suspendAll
  {
    hide Apply;
    InvRun(states, steps, k);
  }

  // ---------------------------------------------------------------------------------------------
  // What each call achieves
  // ---------------------------------------------------------------------------------------------

  /**
   * A thread that asks to join becomes a running member exactly when no suspension is on, and a stopped one runs again
   * exactly when the suspension is over; until then both stay as they are.
   */
  lemma EntersIffReleased(states: seq<State>, steps: seq<Step>, k: nat)
    requires IsRun(states, steps) && k < |steps| && (steps[k].Join? || steps[k].Resume?)
    ensures var s, after, t := states[k], states[k + 1], steps[k].t;
            (Get(after, t).Running? <==> !s.suspendAll) &&
            (s.suspendAll ==> (IsMember(Get(after, t)) <==> steps[k].Resume?)) &&
            after.nthreads == s.nthreads + Bit(steps[k].Join? && !s.suspendAll) &&
            after.stopped == s.stopped - Bit(steps[k].Resume? && !s.suspendAll) &&
            forall u :: u != t ==> Get(after, u) == Get(s, u)
  {
    assert Enabled(states[k], steps[k]) && states[k + 1] == Apply(states[k], steps[k]);
  }

  /** After `desynchronize` nothing holds a thread back until the next `synchronize`. */
  lemma {:induction false} ReleasedUntilNext(states: seq<State>, steps: seq<Step>, i: nat, k: nat)
    requires IsRun(states, steps) && i < k <= |steps| && steps[i].Desynchronize?
    requires forall m :: i < m < k ==> !steps[m].Synchronize?
    ensures !states[k].suspendAll
    decreases k
  {
    assert Enabled(states[k - 1], steps[k - 1]) && states[k] == Apply(states[k - 1], steps[k - 1]);
    if i + 1 < k {
      ReleasedUntilNext(states, steps, i, k - 1);
    }
  }

  /** A member that polls during a suspension is asked to stop, and one that yields is stopped. */
  lemma MembersStop(states: seq<State>, steps: seq<Step>, k: nat)
    requires IsRun(states, steps) && k < |steps| && (steps[k].CheckYield? || steps[k].Yield?)
    ensures var s, after, t := states[k], states[k + 1], steps[k].t;
            Get(after, t) == (if steps[k].Yield? then Stopped else if s.suspendAll then Asked else Running) &&
            after.stopped == s.stopped + Bit(steps[k].Yield?) && after.nthreads == s.nthreads
    ensures steps[k].Yield? ==>
              (states[k + 1].sem > states[k].sem <==> states[k + 1].nthreads == states[k + 1].stopped)
  {
    InvRun(states, steps, k);
    assert Enabled(states[k], steps[k]) && states[k + 1] == Apply(states[k], steps[k]);
  }

  /** A member that leaves is none any more, and wakes the collector exactly when it was the last one not stopped. */
  lemma LeaverIsGone(states: seq<State>, steps: seq<Step>, k: nat)
    requires IsRun(states, steps) && k < |steps| && steps[k].Leave?
    ensures var s, after, t := states[k], states[k + 1], steps[k].t;
            Get(after, t).Out? && after.nthreads == s.nthreads - 1 &&
            (after.sem > s.sem <==> s.suspendAll && after.nthreads == after.stopped)
  {
    assert Enabled(states[k], steps[k]) && states[k + 1] == Apply(states[k], steps[k]);
  }

  /** `synchronize` turns the suspension on, and returns at once exactly when every member is stopped already. */
  lemma SynchronizeWaitsIff(states: seq<State>, steps: seq<Step>, k: nat)
    requires IsRun(states, steps) && k < |steps| && (steps[k].Synchronize? || steps[k].AwaitSignal?)
    ensures states[k + 1].suspendAll
    ensures states[k + 1].collector.Synchronized? <==>
            steps[k].AwaitSignal? || forall t :: IsMember(Get(states[k], t)) ==> Get(states[k], t).Stopped?
    ensures states[k + 1].collector.Synchronized? || states[k + 1].collector.SemWait?
  {
    InvRun(states, steps, k);
    assert Enabled(states[k], steps[k]) && states[k + 1] == Apply(states[k], steps[k]);
    if states[k].nthreads == states[k].stopped {
      forall t | IsMember(Get(states[k], t)) ensures Get(states[k], t).Stopped? {
        EqualCountsMeanStopped(states[k], t);
      }
    } else if forall t :: IsMember(Get(states[k], t)) ==> Get(states[k], t).Stopped? {
      SameSets(states[k]);
    }
  }

  lemma SameSets(s: State)
    requires forall t :: IsMember(Get(s, t)) ==> Get(s, t).Stopped?
    ensures Members(s.threads) == StoppedSet(s.threads)
  {
    forall t | t in Members(s.threads) ensures t in StoppedSet(s.threads) {
      assert IsMember(Get(s, t));
    }
  }

  // ---------------------------------------------------------------------------------------------
  // A suspension completes
  // ---------------------------------------------------------------------------------------------

  function RunningSet(ts: map<nat, Thread>): set<nat> {
    set t | t in ts && ts[t].Running?
  }

  function AskedSet(ts: map<nat, Thread>): set<nat> {
    set t | t in ts && ts[t].Asked?
  }

  /** The moves that members still have to make until all are stopped: a running one has two, an asked one has one. */
  function Unstopped(s: State): nat { 2 * |RunningSet(s.threads)| + |AskedSet(s.threads)| }

  lemma UnstoppedAfterPut(s: State, t: nat, pc: Thread)
    ensures Unstopped(Put(s, t, pc)) == Unstopped(s) + 2 * Bit(pc.Running?) + Bit(pc.Asked?)
                                        - 2 * Bit(Get(s, t).Running?) - Bit(Get(s, t).Asked?)
  {
    SizeAfterMove(RunningSet(s.threads), RunningSet(s.threads[t := pc]), t);
    SizeAfterMove(AskedSet(s.threads), AskedSet(s.threads[t := pc]), t);
  }

  /** A step of a member towards the suspension that is on. */
  predicate Move(step: Step) { step.CheckYield? || step.Yield? || step.Leave? }

  lemma MoveStep(s: State, step: Step)
    requires Inv(s) && Enabled(s, step) && s.suspendAll && !step.Desynchronize?
    ensures Unstopped(Apply(s, step)) + Bit(Move(step)) <= Unstopped(s)
  {
    hide Unstopped;
    match step
    case Join(t) => UnstoppedAfterPut(s, t, JoinWait);
    case Leave(t) =>
      UnstoppedAfterPut(s, t, Out);
      SameThreads(Apply(s, step), Put(s, t, Out));
    case CheckYield(t) => UnstoppedAfterPut(s, t, Asked);
    case Yield(t) =>
      UnstoppedAfterPut(s, t, Stopped);
      SameThreads(Apply(s, step), Put(s, t, Stopped));
    case Resume(_) =>
    case Synchronize =>
    case AwaitSignal => SameThreads(Apply(s, step), s);
  }

  lemma SameThreads(s: State, s': State)
    requires s.threads == s'.threads
    ensures Unstopped(s) == Unstopped(s')
  {
  }

  function Moves(steps: seq<Step>): nat {
    if steps == [] then 0 else Moves(steps[..|steps| - 1]) + Bit(Move(steps[|steps| - 1]))
  }

  /** While a suspension is on, the members make no more moves than they had to make at its beginning. */
  lemma {:induction false} MovesAreBounded(states: seq<State>, steps: seq<Step>, a: nat, b: nat)
    requires IsRun(states, steps) && a <= b <= |steps| && forall m :: a <= m <= b ==> states[m].suspendAll
    ensures Moves(steps[a..b]) + Unstopped(states[b]) <= Unstopped(states[a])
    decreases b - a
  {
    hide Apply, Enabled, Unstopped, Inv;
    if a < b {
      var k := b - 1;
      MovesAreBounded(states, steps, a, k);
      InvRun(states, steps, k);
      assert Enabled(states[k], steps[k]) && states[k + 1] == Apply(states[k], steps[k]);
      EndedMeansReleased(states[k], steps[k]);
      MoveStep(states[k], steps[k]);
      assert steps[a..b][..b - a - 1] == steps[a..k] && steps[a..b][b - a - 1] == steps[k];
    }
  }

  lemma EndedMeansReleased(s: State, step: Step)
    requires Enabled(s, step) && Apply(s, step).suspendAll
    ensures !step.Desynchronize?
  {
  }

  lemma UnstoppedSize(s: State)
    requires Inv(s)
    ensures Unstopped(s) <= 2 * (s.nthreads - s.stopped)
    ensures Unstopped(s) == 0 <==> s.nthreads == s.stopped
  {
    var r, a, z := RunningSet(s.threads), AskedSet(s.threads), StoppedSet(s.threads);
    assert Members(s.threads) == r + a + z && r !! a && (r + a) !! z;
    assert |r + a| == |r| + |a| && |r + a + z| == |r + a| + |z|;
  }

  /**
   * A collector that waits is never stuck: its signal is there, or some member has a move left; and whatever else
   * happens, members make at most two moves for each of them that was not stopped when the waiting began.
   */
  lemma SuspensionCompletes(states: seq<State>, steps: seq<Step>, a: nat, b: nat)
    requires IsRun(states, steps) && a <= b <= |steps| && forall m :: a <= m <= b ==> states[m].collector.SemWait?
    ensures Moves(steps[a..b]) <= 2 * (states[a].nthreads - states[a].stopped)
    ensures Enabled(states[b], AwaitSignal) ||
            exists t :: Enabled(states[b], CheckYield(t)) || Enabled(states[b], Yield(t))
    ensures Moves(steps[a..b]) == 2 * (states[a].nthreads - states[a].stopped) ==> Enabled(states[b], AwaitSignal)
  {
    hide Apply, Unstopped;
    InvRun(states, steps, a);
    InvRun(states, steps, b);
    forall m | a <= m <= b ensures states[m].suspendAll {
      InvRun(states, steps, m);
    }
    MovesAreBounded(states, steps, a, b);
    UnstoppedSize(states[a]);
    UnstoppedSize(states[b]);
    if !Enabled(states[b], AwaitSignal) {
      SomeoneMoves(states[b]);
    }
  }

  lemma SomeoneMoves(s: State)
    requires Unstopped(s) > 0
    ensures exists t :: Enabled(s, CheckYield(t)) || Enabled(s, Yield(t))
  {
    if |RunningSet(s.threads)| > 0 {
      var t :| t in RunningSet(s.threads);
      assert Enabled(s, CheckYield(t));
    } else {
      var t :| t in AskedSet(s.threads);
      assert Enabled(s, Yield(t));
    }
  }
}

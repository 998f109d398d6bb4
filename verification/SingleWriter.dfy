/**
 * The RCU-like single-writer synchronizer.
 *
 * Any number of critical sections enter and exit; one writer at a time waits for the sections that were open when
 * it flipped the polarity of the enter counter. Every access to a shared word is one step.
 */
module SingleWriter {

  /** A critical section: open, having added to its exit counter, or about to signal. */
  datatype Section = Open(value: nat) | Added(exitValue: nat) | Signalling

  datatype WriterPc =
    | Idle
    | StoreNew(before: nat)
    | CasEnter(before: nat)
    | StoreWaiting(before: nat)
    | LoadExit(before: nat)
    | SemWait(before: nat)
    | Drain(before: nat)

  /**
   * `sections` maps the sections in progress by number; `entered` is the next number; `extant` are those open at the
   * flip.
   */
  datatype State = State(
    enter: nat, exits: seq<nat>, waitingFor: nat, sem: nat, writer: WriterPc,
    sections: map<nat, Section>, entered: nat, extant: set<nat>)

  datatype Step =
    | Enter
    | AddExit(id: nat)
    | LoadWaiting(id: nat)
    | Signal(id: nat)
    | Begin
    | Store
    | Cas
    | Announce
    | Load
    | Wait
    | TryWait

  predicate Enabled(s: State, step: Step) {
    |s.exits| == 2 &&
    match step
    case Enter => true
    case AddExit(id) => id in s.sections && s.sections[id].Open?
    case LoadWaiting(id) => id in s.sections && s.sections[id].Added?
    case Signal(id) => id in s.sections && s.sections[id].Signalling?
    case Begin => s.writer.Idle?
    case Store => s.writer.StoreNew?
    case Cas => s.writer.CasEnter?
    case Announce => s.writer.StoreWaiting?
    case Load => s.writer.LoadExit?
    case Wait => s.writer.SemWait? && s.sem > 0
    case TryWait => s.writer.Drain?
  }

  predicate ReaderStep(step: Step) {
    step.Enter? || step.AddExit? || step.LoadWaiting? || step.Signal?
  }

  /** `enter` and `exit`. */
  function Reader(s: State, step: Step): State
    requires Enabled(s, step) && ReaderStep(step)
  {
    match step
    case Enter =>
      s.(enter := s.enter + 2, sections := s.sections[s.entered := Open(s.enter + 2)], entered := s.entered + 1)
    case AddExit(id) =>
      var p := s.sections[id].value % 2;
      var sum := s.exits[p] + 2;
      s.(exits := s.exits[p := sum], sections := s.sections[id := Added(sum)])
    case LoadWaiting(id) =>
      if s.sections[id].exitValue == s.waitingFor then s.(sections := s.sections[id := Signalling])
      else s.(sections := s.sections - {id})
    case Signal(id) => s.(sem := s.sem + 1, sections := s.sections - {id})
  }

  function OpenIds(s: State, p: nat): set<nat> {
    set id | id in s.sections && s.sections[id].Open? && s.sections[id].value % 2 == p
  }

  /** `synchronize`. */
  function Writer(s: State, step: Step): State
    requires Enabled(s, step) && !ReaderStep(step)
  {
    match step
    case Begin => s.(writer := StoreNew(s.enter))
    case Store =>
      var b := s.writer.before;
      s.(exits := s.exits[(b + 1) % 2 := b + 1], writer := CasEnter(b))
    case Cas =>
      var b := s.writer.before;
      if s.enter == b then
        s.(enter := b + 1, writer := StoreWaiting(b), extant := OpenIds(s, 0) + OpenIds(s, 1))
      else s.(writer := StoreNew(s.enter))
    case Announce => s.(waitingFor := s.writer.before, writer := LoadExit(s.writer.before))
    case Load =>
      var b := s.writer.before;
      if s.exits[b % 2] == b then s.(writer := Drain(b)) else s.(writer := SemWait(b))
    case Wait => s.(sem := s.sem - 1, writer := LoadExit(s.writer.before))
    case TryWait => if s.sem > 0 then s.(sem := s.sem - 1) else s.(writer := Idle)
  }

  function Apply(s: State, step: Step): State
    requires Enabled(s, step)
  {
    if ReaderStep(step) then Reader(s, step) else Writer(s, step)
  }

  predicate Init(s: State) {
    s == State(0, [0, 0], 1, 0, Idle, map[], 0, {})
  }

  ghost predicate IsRun(states: seq<State>, steps: seq<Step>) {
    |states| == |steps| + 1 && Init(states[0]) &&
    forall k :: 0 <= k < |steps| ==> Enabled(states[k], steps[k]) && states[k + 1] == Apply(states[k], steps[k])
  }

  // ---------------------------------------------------------------------------------------------
  // The invariant
  // ---------------------------------------------------------------------------------------------

  /** The writer has flipped the polarity and not yet seen the old sections gone. */
  predicate Flipped(s: State) {
    s.writer.StoreWaiting? || s.writer.LoadExit? || s.writer.SemWait?
  }

  /** Live polarity: exit counter plus two per open section is the enter counter. */
  predicate LiveBalance(s: State) {
    |s.exits| == 2 && s.exits[s.enter % 2] + 2 * |OpenIds(s, s.enter % 2)| == s.enter
  }

  /** Old polarity: balanced against the value at the flip while the writer waits, and empty otherwise. */
  predicate OldBalance(s: State) {
    |s.exits| == 2 &&
    var q := 1 - s.enter % 2;
    if Flipped(s) then
      s.writer.before % 2 == q && s.exits[q] + 2 * |OpenIds(s, q)| == s.writer.before
    else OpenIds(s, q) == {}
  }

  predicate WriterOk(s: State) {
    |s.exits| == 2 &&
    match s.writer
    case Idle => true
    case StoreNew(b) => b % 2 == s.enter % 2 && b <= s.enter
    case CasEnter(b) => b % 2 == s.enter % 2 && b <= s.enter && s.exits[1 - s.enter % 2] == b + 1
    case StoreWaiting(b) => true
    case LoadExit(b) => s.waitingFor == b
    case SemWait(b) => s.waitingFor == b
    case Drain(_) => true
  }

  /** A section that will wake the writer: it has made the last addition, or it is about to signal. */
  predicate Waker(s: State, id: nat) {
    id in s.sections && (s.sections[id].Signalling? || s.sections[id] == Added(s.waitingFor))
  }

  ghost predicate NoLostWakeup(s: State) {
    s.writer.SemWait? ==>
      OpenIds(s, s.writer.before % 2) != {} || s.sem > 0 || exists id :: Waker(s, id)
  }

  ghost predicate SectionsOk(s: State) {
    (forall id :: id in s.sections ==> id < s.entered) && (forall id :: id in s.extant ==> id < s.entered)
  }

  /** While the writer waits, every section of the old polarity was extant at the flip, and the others were not. */
  ghost predicate ExtantOk(s: State) {
    (Flipped(s) ==> OpenIds(s, 1 - s.enter % 2) <= s.extant && s.extant !! OpenIds(s, s.enter % 2)) &&
    (s.writer.Drain? ==> forall id :: id in s.extant && id in s.sections ==> !s.sections[id].Open?)
  }

  ghost predicate Inv(s: State) {
    LiveBalance(s) && OldBalance(s) && WriterOk(s) && NoLostWakeup(s) && SectionsOk(s) && ExtantOk(s)
  }

  // ---------------------------------------------------------------------------------------------
  // Every step keeps the invariant
  // ---------------------------------------------------------------------------------------------

  lemma EnterOpens(s: State)
    requires SectionsOk(s) && Enabled(s, Enter)
    ensures OpenIds(Apply(s, Enter), s.enter % 2) == OpenIds(s, s.enter % 2) + {s.entered}
    ensures OpenIds(Apply(s, Enter), 1 - s.enter % 2) == OpenIds(s, 1 - s.enter % 2)
    ensures s.entered !in OpenIds(s, s.enter % 2)
  {
  }

  lemma AddExitCloses(s: State, id: nat)
    requires Enabled(s, AddExit(id))
    ensures var p := s.sections[id].value % 2;
            OpenIds(Apply(s, AddExit(id)), p) == OpenIds(s, p) - {id} && id in OpenIds(s, p) &&
            OpenIds(Apply(s, AddExit(id)), 1 - p) == OpenIds(s, 1 - p)
  {
  }

  lemma OpenUnchanged(s: State, step: Step, p: nat)
    requires Enabled(s, step) && !step.Enter? && !step.AddExit?
    ensures OpenIds(Apply(s, step), p) == OpenIds(s, p)
  {
  }

  lemma InvEnter(s: State)
    requires Inv(s) && Enabled(s, Enter)
    ensures Inv(Apply(s, Enter))
  {
    EnterOpens(s);
    var s' := Apply(s, Enter);
    assert s'.enter % 2 == s.enter % 2;
    if exists id :: Waker(s, id) {
      var id :| Waker(s, id);
      assert Waker(s', id);
    }
  }

  lemma InvAddExit(s: State, id: nat)
    requires Inv(s) && Enabled(s, AddExit(id))
    ensures Inv(Apply(s, AddExit(id)))
  {
    hide NoLostWakeup;
    AddExitCloses(s, id);
    AddExitWakes(s, id);
    var s' := Apply(s, AddExit(id));
    var p := s.sections[id].value % 2;
    assert |OpenIds(s', p)| == |OpenIds(s, p)| - 1;
  }

  /** The addition that completes the old counter makes its section the waker. */
  lemma AddExitWakes(s: State, id: nat)
    requires Inv(s) && Enabled(s, AddExit(id))
    ensures NoLostWakeup(Apply(s, AddExit(id)))
  {
    hide ExtantOk, SectionsOk;
    AddExitCloses(s, id);
    var s' := Apply(s, AddExit(id));
    var p := s.sections[id].value % 2;
    assert |OpenIds(s', p)| == |OpenIds(s, p)| - 1;
    if s.writer.SemWait? && OpenIds(s', s.writer.before % 2) == {} {
      if p == s.writer.before % 2 {
        assert Waker(s', id);
      } else if exists other :: Waker(s, other) {
        var other :| Waker(s, other);
        assert Waker(s', other);
      }
    }
  }

  lemma InvSignal(s: State, step: Step)
    requires Inv(s) && Enabled(s, step) && (step.LoadWaiting? || step.Signal?)
    ensures Inv(Apply(s, step))
  {
    var s' := Apply(s, step);
    OpenUnchanged(s, step, 0);
    OpenUnchanged(s, step, 1);
    if s.writer.SemWait? && OpenIds(s, s.writer.before % 2) == {} && s'.sem == 0 {
      var id :| Waker(s, id);
      assert Waker(s', id);
    }
  }

  lemma InvCas(s: State)
    requires Inv(s) && Enabled(s, Cas)
    ensures Inv(Apply(s, Cas))
  {
    var s' := Apply(s, Cas);
    OpenUnchanged(s, Cas, 0);
    OpenUnchanged(s, Cas, 1);
    if s.enter == s.writer.before {
      assert s'.enter % 2 == 1 - s.enter % 2;
      assert OpenIds(s, s.enter % 2) <= s'.extant;
    }
  }

  lemma InvLoad(s: State)
    requires Inv(s) && Enabled(s, Load)
    ensures Inv(Apply(s, Load))
  {
    var s' := Apply(s, Load);
    OpenUnchanged(s, Load, 0);
    OpenUnchanged(s, Load, 1);
    assert forall id :: id in s.sections && s.sections[id].Open? ==> id in OpenIds(s, 0) || id in OpenIds(s, 1);
  }

  lemma InvWriterRest(s: State, step: Step)
    requires Inv(s) && Enabled(s, step) && (step.Begin? || step.Store? || step.Announce? || step.Wait? || step.TryWait?)
    ensures Inv(Apply(s, step))
  {
    OpenUnchanged(s, step, 0);
    OpenUnchanged(s, step, 1);
  }

  lemma InvStep(s: State, step: Step)
    requires Inv(s) && Enabled(s, step)
    ensures Inv(Apply(s, step))
  {
    hide Apply, Inv, Enabled;
    match step
    case Enter => InvEnter(s);
    case AddExit(id) => InvAddExit(s, id);
    case LoadWaiting(_) => InvSignal(s, step);
    case Signal(_) => InvSignal(s, step);
    case Begin => InvWriterRest(s, step);
    case Store => InvWriterRest(s, step);
    case Cas => InvCas(s);
    case Announce => InvWriterRest(s, step);
    case Load => InvLoad(s);
    case Wait => InvWriterRest(s, step);
    case TryWait => InvWriterRest(s, step);
  }

  lemma InvInit(s: State)
    requires Init(s)
    ensures Inv(s)
  {
    assert OpenIds(s, 0) == {} && OpenIds(s, 1) == {};
  }

  lemma {:induction false} InvRun(states: seq<State>, steps: seq<Step>, k: nat)
    requires IsRun(states, steps) && k < |states|
    ensures Inv(states[k])
  {
    hide Apply, Enabled, Inv;
    if k == 0 {
      InvInit(states[0]);
    } else {
      InvRun(states, steps, k - 1);
      InvStep(states[k - 1], steps[k - 1]);
    }
  }

  // ---------------------------------------------------------------------------------------------
  // Main results
  // ---------------------------------------------------------------------------------------------

  /** Between two states a section number, once closed, is never open again. */
  lemma {:induction false} ClosedStaysClosed(states: seq<State>, steps: seq<Step>, i: nat, j: nat, id: nat)
    requires IsRun(states, steps) && i <= j < |states| && id < states[i].entered
    requires id in states[j].sections && states[j].sections[id].Open?
    ensures id in states[i].sections && states[i].sections[id] == states[j].sections[id]
    ensures id < states[j].entered
    decreases j - i
  {
    if i < j {
      assert states[j] == Apply(states[j - 1], steps[j - 1]) && Enabled(states[j - 1], steps[j - 1]);
      EnteredGrows(states, steps, i, j - 1);
      ClosedStaysClosed(states, steps, i, j - 1, id);
    } else {
      InvRun(states, steps, i);
    }
  }

  lemma {:induction false} EnteredGrows(states: seq<State>, steps: seq<Step>, i: nat, j: nat)
    requires IsRun(states, steps) && i <= j < |states|
    ensures states[i].entered <= states[j].entered
    decreases j - i
  {
    if i < j {
      EnteredGrows(states, steps, i, j - 1);
      assert states[j] == Apply(states[j - 1], steps[j - 1]);
    }
  }

  /** The writer is inside one call of `synchronize`, from its flip at step `i` to state `k`. */
  ghost predicate SameSync(states: seq<State>, steps: seq<Step>, i: nat, k: nat) {
    i < k < |states| && |states| == |steps| + 1 && steps[i].Cas? && states[i].writer.CasEnter? &&
    states[i].enter == states[i].writer.before &&
    forall m :: i < m < k ==> !states[m].writer.Idle?
  }

  lemma {:induction false} ExtantFixed(states: seq<State>, steps: seq<Step>, i: nat, k: nat)
    requires IsRun(states, steps) && SameSync(states, steps, i, k)
    ensures states[k].extant == OpenIds(states[i], 0) + OpenIds(states[i], 1)
    ensures states[k].writer.Idle? || Flipped(states[k]) || states[k].writer.Drain?
    decreases k
  {
    if k == i + 1 {
      assert states[k] == Apply(states[i], steps[i]);
    } else {
      ExtantFixed(states, steps, i, k - 1);
      assert states[k] == Apply(states[k - 1], steps[k - 1]) && Enabled(states[k - 1], steps[k - 1]);
    }
  }

  /**
   * When `synchronize` returns, no critical section that was open at its polarity flip is still open, however
   * many sections came and went meanwhile.
   */
  lemma SynchronizeWaitsForOld(states: seq<State>, steps: seq<Step>, i: nat, k: nat, id: nat)
    requires IsRun(states, steps) && SameSync(states, steps, i, k)
    requires states[k].writer.Drain? || states[k].writer.Idle?
    requires id in states[i].sections && states[i].sections[id].Open?
    ensures !(id in states[k].sections && states[k].sections[id].Open?)
    decreases k
  {
    ExtantFixed(states, steps, i, k);
    InvRun(states, steps, k);
    InvRun(states, steps, i);
    assert id in OpenIds(states[i], 0) + OpenIds(states[i], 1);
    if states[k].writer.Idle? && id in states[k].sections && states[k].sections[id].Open? {
      assert states[k] == Apply(states[k - 1], steps[k - 1]) && Enabled(states[k - 1], steps[k - 1]);
      ExtantFixed(states, steps, i, k - 1);
      ClosedStaysClosed(states, steps, k - 1, k, id);
      SynchronizeWaitsForOld(states, steps, i, k - 1, id);
    }
  }

  /** A blocked writer is never forgotten: an old section is still open, or a signal is pending or on its way. */
  lemma WakeupNotLost(states: seq<State>, steps: seq<Step>, k: nat)
    requires IsRun(states, steps) && k < |states| && states[k].writer.SemWait?
    ensures OpenIds(states[k], states[k].writer.before % 2) != {} || states[k].sem > 0 ||
            exists id :: Waker(states[k], id)
    ensures states[k].waitingFor == states[k].writer.before
  {
    hide Apply, Enabled;
    InvRun(states, steps, k);
  }

  /** Storing into the other exit counter never disturbs a section: none uses it at that time. */
  lemma StoreHitsUnusedCounter(states: seq<State>, steps: seq<Step>, k: nat)
    requires IsRun(states, steps) && k < |steps| && steps[k].Store?
    ensures Enabled(states[k], steps[k]) && OpenIds(states[k], (states[k].writer.before + 1) % 2) == {}
  {
    hide Apply;
    InvRun(states, steps, k);
  }

  // ---------------------------------------------------------------------------------------------
  // A synchronize goes on to its end
  // ---------------------------------------------------------------------------------------------

  /** How far the writer is from returning, if it is left alone; every signal pending costs it another look. */
  function Ahead(s: State): nat {
    2 * s.sem +
    match s.writer
    case Idle => 0
    case Drain(_) => 1
    case SemWait(_) => 2
    case LoadExit(_) => 3
    case StoreWaiting(_) => 4
    case CasEnter(b) => if s.enter == b then 5 else 7
    case StoreNew(b) => if s.enter == b then 6 else 8
  }

  /** What a step of a critical section or a new call can add to it. */
  function Delay(step: Step): nat {
    if step.Begin? then 6 else if step.Enter? || step.Signal? then 2 else 0
  }

  /** A step of the writer within a call. */
  predicate WriterStep(step: Step) { !ReaderStep(step) && !step.Begin? }

  lemma AheadStep(s: State, step: Step)
    requires Enabled(s, step)
    ensures Ahead(Apply(s, step)) + (if WriterStep(step) then 1 else 0) <= Ahead(s) + Delay(step)
    ensures step.Begin? ==> !Apply(s, step).writer.Idle?
  {
  }

  function WriterSteps(steps: seq<Step>): nat {
    if steps == [] then 0
    else WriterSteps(steps[..|steps| - 1]) + if WriterStep(steps[|steps| - 1]) then 1 else 0
  }

  function Delays(steps: seq<Step>): nat {
    if steps == [] then 0 else Delays(steps[..|steps| - 1]) + Delay(steps[|steps| - 1])
  }

  /**
   * The writer's loops are bounded by what others do: in any stretch of a run it takes no more steps than the calls,
   * the entries and the signals of that stretch account for.
   */
  lemma {:induction false} WriterIsBounded(states: seq<State>, steps: seq<Step>, a: nat, b: nat)
    requires IsRun(states, steps) && a <= b <= |steps|
    ensures WriterSteps(steps[a..b]) + Ahead(states[b]) <= Ahead(states[a]) + Delays(steps[a..b])
    decreases b - a
  {
    hide Apply, Enabled, Ahead, Delay;
    if a < b {
      WriterIsBounded(states, steps, a, b - 1);
      assert Enabled(states[b - 1], steps[b - 1]) && states[b - 1 + 1] == Apply(states[b - 1], steps[b - 1]);
      AheadStep(states[b - 1], steps[b - 1]);
      assert steps[a..b][..b - a - 1] == steps[a..b - 1] && steps[a..b][b - a - 1] == steps[b - 1];
    }
  }

  /** The step the writer takes next. */
  function NextOf(w: WriterPc): Step {
    match w
    case Idle => Begin
    case StoreNew(_) => Store
    case CasEnter(_) => Cas
    case StoreWaiting(_) => Announce
    case LoadExit(_) => Load
    case SemWait(_) => Wait
    case Drain(_) => TryWait
  }

  /** The writer can always go on, or it waits for a section that is still to exit or about to wake it. */
  lemma WriterNeverStuck(states: seq<State>, steps: seq<Step>, k: nat)
    requires IsRun(states, steps) && k < |states|
    ensures Enabled(states[k], NextOf(states[k].writer)) ||
            (states[k].writer.SemWait? &&
             exists id :: id in states[k].sections &&
               (Waker(states[k], id) ||
                (states[k].sections[id].Open? && states[k].sections[id].value % 2 == states[k].writer.before % 2)))
  {
    hide Apply;
    InvRun(states, steps, k);
    var s := states[k];
    if s.writer.SemWait? && s.sem == 0 {
      if OpenIds(s, s.writer.before % 2) != {} {
        var id :| id in OpenIds(s, s.writer.before % 2);
        assert id in s.sections;
      } else {
        var id :| Waker(s, id);
        assert id in s.sections;
      }
    }
  }

  /** Entering opens a section of the polarity that is live, under a new number; it waits for nobody. */
  lemma EnterAlwaysOpens(states: seq<State>, steps: seq<Step>, k: nat)
    requires IsRun(states, steps) && k < |states|
    ensures Enabled(states[k], Enter)
    ensures var s, after := states[k], Apply(states[k], Enter);
            s.entered !in s.sections && after.sections.Keys == s.sections.Keys + {s.entered} &&
            after.sections[s.entered].Open? && after.sections[s.entered].value % 2 == s.enter % 2 &&
            after.entered == s.entered + 1
  {
    InvRun(states, steps, k);
  }

  /** How many steps of its own a section still has before it. */
  function ToExit(s: State, id: nat): nat {
    if id !in s.sections then 0
    else match s.sections[id]
         case Open(_) => 3
         case Added(_) => 2
         case Signalling => 1
  }

  predicate StepOf(step: Step, id: nat) {
    step == AddExit(id) || step == LoadWaiting(id) || step == Signal(id)
  }

  /** An exit never waits: a section in progress has a step, each brings it closer to its end, nothing sets it back. */
  lemma ExitsNeverWait(states: seq<State>, steps: seq<Step>, k: nat, id: nat)
    requires IsRun(states, steps) && k < |states| && id in states[k].sections
    ensures exists step :: StepOf(step, id) && Enabled(states[k], step)
    ensures k < |steps| ==>
              if StepOf(steps[k], id) then ToExit(states[k + 1], id) < ToExit(states[k], id)
              else ToExit(states[k + 1], id) == ToExit(states[k], id)
  {
    InvRun(states, steps, k);
    var s := states[k];
    var x := s.sections[id];
    var next := if x.Open? then AddExit(id) else if x.Added? then LoadWaiting(id) else Signal(id);
    assert StepOf(next, id) && Enabled(s, next);
    if k < |steps| {
      assert Enabled(s, steps[k]) && states[k + 1] == Apply(s, steps[k]);
    }
  }

  /** The polarity within a call that began with parity p. */
  predicate PolarityOk(s: State, p: nat) {
    if s.writer.StoreNew? || s.writer.CasEnter? then s.enter % 2 == p else s.enter % 2 != p
  }

  lemma PolarityStep(s: State, step: Step, p: nat)
    requires Inv(s) && Enabled(s, step) && !s.writer.Idle? && PolarityOk(s, p) && p < 2
    ensures PolarityOk(Apply(s, step), p)
  {
    hide LiveBalance, OldBalance, NoLostWakeup, SectionsOk, ExtantOk, OpenIds;
    var after := Apply(s, step);
    assert ReaderStep(step) ==> after.enter % 2 == s.enter % 2 && after.writer == s.writer;
    assert WriterOk(s);
  }

  /** A call of `synchronize` flips the polarity exactly once, however often its compare-and-swap fails. */
  lemma {:induction false} FlipsOnce(states: seq<State>, steps: seq<Step>, i: nat, k: nat)
    requires IsRun(states, steps) && i < k <= |steps| && steps[i].Begin?
    requires forall m :: i < m < k ==> !states[m].writer.Idle?
    ensures PolarityOk(states[k], states[i].enter % 2)
    ensures states[k].writer.Idle? ==> states[k].enter % 2 != states[i].enter % 2
    decreases k
  {
    hide Inv, PolarityOk, Enabled, Apply;
    var s := states[k - 1];
    assert Enabled(s, steps[k - 1]) && states[k - 1 + 1] == Apply(s, steps[k - 1]);
    if k == i + 1 {
      BeginKeeps(s);
    } else {
      FlipsOnce(states, steps, i, k - 1);
      InvRun(states, steps, k - 1);
      PolarityStep(s, steps[k - 1], states[i].enter % 2);
    }
    PolarityAtEnd(states[k], states[i].enter % 2);
  }

  lemma BeginKeeps(s: State)
    requires Enabled(s, Begin)
    ensures PolarityOk(Apply(s, Begin), s.enter % 2)
  {
  }

  lemma PolarityAtEnd(s: State, p: nat)
    requires PolarityOk(s, p)
    ensures s.writer.Idle? ==> s.enter % 2 != p
  {
  }
}

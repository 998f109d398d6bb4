/** The life of a humongous object: from its allocation to the sweep that finds it unmarked. */
module HumongousLife {
  import opened Tiling
  import opened FreeListSpec
  import opened RegionModel
  import opened Sweeper
  import opened FreeSetModel
  import opened Humongous
  import opened HeapRun
  import opened HeapInvariant
  import opened HeapSafety

  /** An object of n bytes lives at the bottom of region beg. */
  predicate RunAt(c: Config, f: FreeSet, beg: nat, n: nat) {
    beg < |f.regions| && f.regions[beg].kind.HumongousStart? &&
    Bottom(c, beg) in f.regions[beg].headers && f.regions[beg].headers[Bottom(c, beg)] == Header(n, false)
  }

  /** A sweep that finds the object of region beg unmarked. */
  predicate Trashes(c: Config, step: Step, beg: nat) {
    step.Sweep? && step.i == beg && Bottom(c, beg) !in step.marks
  }

  lemma LargeStarts(c: Config, s: Heap, beg: nat, n: nat, after: Heap)
    requires HeapInv(c, s) && NextLarge(c, s, beg, n, after)
    ensures RunAt(c, after.free, beg, n)
  {
    RequiredPositive(c, n);
    hide Required, Bottom, HeapInv;
    assert after.free.regions == RunRegions(c, s.free.regions, beg, Required(c, n), n);
  }

  lemma TryKeepsRun(c: Config, s: Heap, i: nat, n: nat, beg: nat, m: nat)
    requires HeapInv(c, s) && CanTry(c, s, i, n) && RunAt(c, s.free, beg, m)
    ensures i != beg && RunAt(c, Try(c, s, i, n).after, beg, m)
  {
    hide HeapInv, Inv, Usable, Try, Tails, TryAllocateIn, Bottom;
    TryFrom(c, s, i, n, Tail(0));
  }

  lemma TakeRunKeepsRun(c: Config, f: FreeSet, i: nat, num: nat, n: nat, beg: nat, m: nat)
    requires c.size > 0 && f.left <= |f.bits| && f.right < |f.bits| && FreeRun(f, i, num) && RunAt(c, f, beg, m)
    ensures !(i <= beg < i + num) && RunAt(c, TakeRun(c, f, i, num, n), beg, m)
    ensures |TakeRun(c, f, i, num, n).regions| == |f.regions|
  {
    hide Bottom, Required, MakeHumongous;
    assert i <= beg < i + num ==> RunFree(f, beg);
    assert TakeRun(c, f, i, num, n).regions == RunRegions(c, f.regions, i, num, n);
  }

  /** Bumping or retiring a buffer leaves the first header of every run alone. */
  lemma BufferKeepsRun(c: Config, s: Heap, t: nat, r: Region, beg: nat, m: nat)
    requires HeapInv(c, s) && t < |s.tlabs| && s.tlabs[t].Tlab? && RunAt(c, s.free, beg, m)
    requires s.tlabs[t].region < |s.free.regions| && r.kind == s.free.regions[s.tlabs[t].region].kind
    requires forall a :: a != s.tlabs[t].top && a in s.free.regions[s.tlabs[t].region].headers ==>
               a in r.headers && r.headers[a] == s.free.regions[s.tlabs[t].region].headers[a]
    ensures RunAt(c, WithRegion(s.free, s.tlabs[t].region, r), beg, m)
  {
    assert TlabOk(c, s.free, s.tlabs[t]);
    hide Inv, Bottom, Reaches, TlabsOk, Occupied;
  }

  lemma SweepKeepsRun(c: Config, s: Heap, i: nat, marks: set<nat>, swept: Region, after: Heap, beg: nat, n: nat)
    requires HeapInv(c, s) && NextSweep(c, s, i, marks, swept, after) && RunAt(c, s.free, beg, n)
    requires i == beg ==> Bottom(c, beg) in marks
    ensures RunAt(c, after.free, beg, n)
  {
    assert RunsOk(c, s.free.regions);
    hide HeapInv, SweptTo, Bottom, Span;
    assert !Owns(c, s.free.regions, i, beg);
  }

  /** Until a sweep finds it unmarked, the object stays. */
  lemma RunAtStep(c: Config, s: Heap, step: Step, after: Heap, beg: nat, n: nat)
    requires HeapInv(c, s) && Next(c, s, step, after) && RunAt(c, s.free, beg, n) && !Trashes(c, step, beg)
    requires step.Decommit? ==> VacantAtLock(s)
    ensures RunAt(c, after.free, beg, n)
  {
    hide HeapInv, Try, CanTry, Tails, Required, Rebuild, TakeRun, Bottom, SweepDone, FreeRun, Add;
    match step
    case Shared(t, i, m) => TryKeepsRun(c, s, i, m, beg, n);
    case Refill(t, i, want) =>
      if Fits(c) {
        TryKeepsRun(c, s, i, c.buffer, beg, n);
      } else {
        TakeRunKeepsRun(c, s.free, i, Required(c, c.buffer), want, beg, n);
        RequiredPositive(c, c.buffer);
      }
    case Bump(t, m) => BufferKeepsRun(c, s, t, after.free.regions[s.tlabs[t].region], beg, n);
    case Retire(t) =>
      if s.tlabs[t].top < s.tlabs[t].end {
        BufferKeepsRun(c, s, t, after.free.regions[s.tlabs[t].region], beg, n);
      }
    case Large(i, m) => TakeRunKeepsRun(c, s.free, i, Required(c, m), m, beg, n);
    case PrepareSweep =>
    case Sweep(i, marks, swept) => SweepKeepsRun(c, s, i, marks, swept, after, beg, n);
    case RebuildSet => RebuildKeepsRegions(c, s.free);
    case Look(_) =>
    case Skip =>
    case Decommit =>
  }

  lemma {:induction false} RunAtRun(c: Config, states: seq<Heap>, steps: seq<Step>, i: nat, k: nat, beg: nat, n: nat)
    requires CarefulRun(c, states, steps) && i < k <= |steps| && steps[i] == Large(beg, n)
    requires forall m :: i < m < k ==> !Trashes(c, steps[m], beg)
    ensures RunAt(c, states[k].free, beg, n)
    decreases k
  {
    hide HeapInv, NextLarge, NextShared, NextRefill, NextBump, NextRetire, NextPrepare, NextSweep, NextRebuild, Init;
    hide NextDecommit, NextLook, NextSkip, Trashes, RunAt, VacantAtLock;
    InvRun(c, states, steps, k - 1);
    assert Next(c, states[k - 1], steps[k - 1], states[k]);
    if k == i + 1 {
      LargeStarts(c, states[i], beg, n, states[k]);
    } else {
      RunAtRun(c, states, steps, i, k - 1, beg, n);
      RunAtStep(c, states[k - 1], steps[k - 1], states[k], beg, n);
    }
  }

  lemma TrashStep(c: Config, s: Heap, beg: nat, marks: set<nat>, swept: Region, after: Heap, n: nat, j: nat)
    requires HeapInv(c, s) && NextSweep(c, s, beg, marks, swept, after) && RunAt(c, s.free, beg, n)
    requires Bottom(c, beg) !in marks && j < |s.free.regions|
    ensures c.size > 0 && |after.free.regions| == |s.free.regions|
    ensures if beg <= j < beg + Required(c, n)
            then IsHumongous(s.free.regions[j]) && after.free.regions[j].kind.Trash?
            else after.free.regions[j] == s.free.regions[j]
  {
    assert RunsOk(c, s.free.regions);
    hide HeapInv, Bottom, Required;
    assert Span(c, s.free.regions, beg) == Required(c, n);
    if beg < j < beg + Required(c, n) {
      assert Owns(c, s.free.regions, beg, j);
    }
  }

  /**
   * However many steps an object lives through, the sweep that finds it unmarked turns exactly the regions its
   * allocation took from humongous to trash, and touches no other region.
   */
  lemma TrashFreesWhatWasTaken(
    c: Config, states: seq<Heap>, steps: seq<Step>, i: nat, k: nat, beg: nat, n: nat, j: nat)
    requires CarefulRun(c, states, steps) && i < k < |steps| && steps[i] == Large(beg, n) && Trashes(c, steps[k], beg)
    requires forall m :: i < m < k ==> !Trashes(c, steps[m], beg)
    requires j < c.count
    ensures c.size > 0 && |states[k].free.regions| == |states[k + 1].free.regions| == c.count
    ensures if beg <= j < beg + Required(c, n)
            then IsHumongous(states[k].free.regions[j]) && states[k + 1].free.regions[j].kind.Trash?
            else states[k + 1].free.regions[j] == states[k].free.regions[j]
  {
    RunAtRun(c, states, steps, i, k, beg, n);
    InvRun(c, states, steps, k);
    TableSize(c, states[k]);
    assert Next(c, states[k], steps[k], states[k + 1]);
    hide HeapInv, NextSweep, RunAt, CarefulRun, Required;
    TrashStep(c, states[k], beg, steps[k].marks, steps[k].swept, states[k + 1], n, j);
  }
}

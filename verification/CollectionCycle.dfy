/** A stop-the-world cycle as a whole: what is left afterwards is what is reachable. */
module CollectionCycle {
  import opened Tiling
  import opened FreeListSpec
  import opened RegionModel
  import opened Sweeper
  import opened FreeSetModel
  import opened Humongous
  import opened HeapRun
  import opened HeapInvariant
  import opened HeapSafety
  import HeapGraph
  import ParallelMark
  import MarkExact
  import MarkRestart

  /**
   * The collector's part of a cycle, with the world stopped and the buffers retired: prepare every region, then sweep
   * regions in any order, as the sequential and the parallel iteration both do, until none is left.
   */
  ghost predicate IsCycle(c: Config, marks: set<nat>, states: seq<Heap>, steps: seq<Step>) {
    |steps| > 0 && |states| == |steps| + 1 && HeapInv(c, states[0]) && steps[0].PrepareSweep? &&
    (forall k :: 0 <= k < |steps| ==> Next(c, states[k], steps[k], states[k + 1])) &&
    (forall k :: 0 < k < |steps| ==> steps[k].Sweep? && steps[k].marks == marks) &&
    forall j :: 0 <= j < |states[|steps|].free.regions| ==> !states[|steps|].free.regions[j].toSweep
  }

  /** A region still to be swept holds what it held; a region done holds what the marks keep of it. */
  ghost predicate Progress(c: Config, marks: set<nat>, before: FreeSet, now: FreeSet) {
    |now.regions| == |before.regions| && forall j :: 0 <= j < |now.regions| ==> RegionProgress(c, marks, before, now, j)
  }

  ghost predicate RegionProgress(c: Config, marks: set<nat>, before: FreeSet, now: FreeSet, j: nat)
    requires j < |now.regions| == |before.regions|
  {
    var was, r := before.regions[j], now.regions[j];
    if r.toSweep then r.objects == was.objects && r.kind == was.kind
    else r.objects == Kept(c, j, was, marks) && (was.kind.HumongousCont? || r.kind == KindKept(c, j, was, marks))
  }

  /** Preparation puts up every region that holds an object. */
  lemma PrepareProgress(c: Config, s: Heap, marks: set<nat>, after: Heap)
    requires HeapInv(c, s) && NextPrepare(c, s, after)
    ensures Progress(c, marks, s.free, after.free)
  {
    TableSize(c, s);
    hide HeapInv;
    forall j | 0 <= j < |after.free.regions| ensures RegionProgress(c, marks, s.free, after.free, j) {
      RegionOf(c, s, j);
      if !Sweepable(s.free.regions[j]) {
        UnsweptIsVacant(c, j, s.free.regions[j], AllTails(c, s.tlabs)[j]);
        assert Survivors({}, marks) == {};
      }
    }
  }

  lemma UnsweptIsVacant(c: Config, j: nat, r: Region, tails: set<Tile>)
    requires RegionOk(c, j, r, tails) && !Sweepable(r)
    ensures r.objects == {} && !r.toSweep
  {
  }

  lemma SweepProgress(c: Config, before: FreeSet, s: Heap, i: nat, marks: set<nat>, swept: Region, after: Heap)
    requires HeapInv(c, s) && NextSweep(c, s, i, marks, swept, after) && Progress(c, marks, before, s.free)
    ensures Progress(c, marks, before, after.free)
  {
    SweepPending(c, s, i, marks, swept, after);
    hide HeapInv, NextSweep;
    SweepFreesUnmarked(c, s, i, marks, swept, after, i);
    forall j | 0 <= j < |after.free.regions| ensures RegionProgress(c, marks, before, after.free, j) {
      SweepFreesUnmarked(c, s, i, marks, swept, after, j);
      assert RegionProgress(c, marks, before, s.free, j);
    }
  }

  lemma {:induction false} CycleProgress(c: Config, marks: set<nat>, states: seq<Heap>, steps: seq<Step>, k: nat)
    requires IsCycle(c, marks, states, steps) && 0 < k <= |steps|
    ensures HeapInv(c, states[k]) && Progress(c, marks, states[0].free, states[k].free)
  {
    hide HeapInv, NextPrepare, NextSweep, NextShared, NextRefill, NextBump, NextRetire, NextLarge, NextRebuild;
    hide Progress, NextLook, NextSkip, NextDecommit;
    var s := states[k - 1];
    assert Next(c, s, steps[k - 1], states[k]);
    if k == 1 {
      PrepareProgress(c, s, marks, states[1]);
    } else {
      CycleProgress(c, marks, states, steps, k - 1);
      SweepProgress(c, states[0].free, s, steps[k - 1].i, marks, steps[k - 1].swept, states[k]);
    }
    InvNext(c, s, steps[k - 1], states[k]);
  }

  /**
   * After the cycle every region holds exactly what the marks keep of it; when buffers fit, these are its marked
   * objects.
   */
  lemma CycleKeepsMarked(c: Config, marks: set<nat>, states: seq<Heap>, steps: seq<Step>, j: nat)
    requires IsCycle(c, marks, states, steps) && j < |states[0].free.regions|
    ensures |states[|steps|].free.regions| == |states[0].free.regions|
    ensures states[|steps|].free.regions[j].objects == Kept(c, j, states[0].free.regions[j], marks)
    ensures Fits(c) ==> states[|steps|].free.regions[j].objects == Survivors(states[0].free.regions[j].objects, marks)
    ensures HeapInv(c, states[|steps|])
    ensures !states[0].free.regions[j].kind.HumongousCont? ==>
              states[|steps|].free.regions[j].kind == KindKept(c, j, states[0].free.regions[j], marks)
  {
    hide HeapInv, Next, Kept, KindKept;
    CycleProgress(c, marks, states, steps, |steps|);
    TableSize(c, states[0]);
    assert RegionProgress(c, marks, states[0].free, states[|steps|].free, j);
    if Fits(c) {
      KeptIsMarked(c, states[0], j, marks);
    }
  }

  /**
   * The rebuild at the end of a cycle. A region in which nothing is kept can serve any request up to its size again; a
   * Regular one with survivors is offered if and only if it has a free block; a kept humongous run is not.
   */
  lemma FreedIsOffered(c: Config, marks: set<nat>, states: seq<Heap>, steps: seq<Step>, after: Heap, j: nat, n: nat)
    requires IsCycle(c, marks, states, steps) && NextRebuild(c, states[|steps|], after)
    requires j < |states[0].free.regions| && Sweepable(states[0].free.regions[j]) && 0 < n <= c.size
    ensures var was := states[0].free.regions[j];
            |after.free.regions| == |after.free.bits| == |states[0].free.regions| &&
            var r := after.free.regions[j];
            if Kept(c, j, was, marks) == {} then r.kind.Trash? && after.free.bits[j] && Serves(c, r, n)
            else if was.kind.Regular? then r.kind.Regular? && (after.free.bits[j] <==> Blocks(r.lists) != {})
            else r.kind.HumongousStart? && !after.free.bits[j]
  {
    hide HeapInv, Next, Rebuild, ListsOk, Blocks, LargeBlock, LuckyHead, CeilLog2;
    CycleKeepsMarked(c, marks, states, steps, j);
    TableSize(c, states[0]);
    assert Occupied(states[0].free) by {
      OccupiedOf(c, states[0]);
    }
    var s := states[|steps|];
    TableSize(c, s);
    ListsOf(c, s);
    RebuildIsExact(c, s.free, j);
  }

  lemma OccupiedOf(c: Config, s: Heap)
    requires HeapInv(c, s)
    ensures Occupied(s.free)
  {
  }

  lemma ListsOf(c: Config, s: Heap)
    requires HeapInv(c, s)
    ensures ListsOk(s.free.regions)
  {
    hide Inv, ListsOk;
    InvLists(c, s.free, AllTails(c, s.tlabs));
  }

  /** `addr` gives the header address of every object of the graph; these are exactly the allocated blocks. */
  ghost predicate Represents(h: HeapGraph.Heap, addr: seq<nat>, f: FreeSet) {
    |addr| == |h| && (forall o, p :: 0 <= o < p < |addr| ==> addr[o] != addr[p]) &&
    (forall j, b :: 0 <= j < |f.regions| && b in f.regions[j].objects ==> b.addr in addr) &&
    forall o :: 0 <= o < |addr| ==> Allocated(f, addr, o)
  }

  ghost predicate Allocated(f: FreeSet, addr: seq<nat>, o: nat) {
    exists j: nat, b :: IsBlock(f, addr, o, j, b)
  }

  /** Block b of region j is object o. */
  predicate IsBlock(f: FreeSet, addr: seq<nat>, o: nat, j: nat, b: Block) {
    o < |addr| && j < |f.regions| && b in f.regions[j].objects && addr[o] == b.addr
  }

  /** Everything a full cycle consists of: the marking, from whatever queues, and the sweep that its marks drive. */
  datatype Cycle = Cycle(
    m: ParallelMark.Config, roots: set<nat>, marking: seq<ParallelMark.State>, moves: seq<ParallelMark.Step>,
    c: Config, addr: seq<nat>, states: seq<Heap>, steps: seq<Step>, marks: set<nat>)
  {
    ghost predicate Ok() {
      ParallelMark.ConfigOk(m) && ParallelMark.IsRun(m, roots, marking, moves) &&
      (exists w: nat :: w < |Last().workers| && Last().workers[w].phase.Exited?) &&
      IsCycle(c, marks, states, steps) && Fits(c) && Represents(m.heap, addr, Before()) &&
      forall a :: a in marks <==> exists x: nat :: x < |addr| && x in Last().marked && addr[x] == a
    }

    /** The state in which a worker has found marking finished. */
    ghost function Last(): ParallelMark.State
      requires |marking| == |moves| + 1
    {
      marking[|moves|]
    }

    ghost function Before(): FreeSet
      requires |states| > 0
    {
      states[0].free
    }

    ghost function After(): FreeSet
      requires |states| == |steps| + 1
    {
      states[|steps|].free
    }

    /** Block b of region j is still there after the cycle. */
    ghost predicate Survives(j: nat, b: Block)
      requires |states| == |steps| + 1
    {
      j < |After().regions| && b in After().regions[j].objects
    }

    ghost function LeftTargets(): set<nat>
      requires |marking| > 0
    {
      ParallelMark.LeftTargets(m, roots, marking[0])
    }
  }

  lemma CycleShape(y: Cycle)
    requires y.Ok()
    ensures |y.marking| == |y.moves| + 1 && |y.states| == |y.steps| + 1 && |y.addr| == |y.m.heap|
    ensures forall o :: 0 <= o < |y.addr| ==> Allocated(y.Before(), y.addr, o)
  {
  }

  lemma SurvivesIffMarked(y: Cycle, o: nat, j: nat, b: Block)
    requires y.Ok() && IsBlock(y.Before(), y.addr, o, j, b)
    ensures y.Survives(j, b) <==> o in y.Last().marked
  {
    CycleShape(y);
    hide HeapInv, Next, ParallelMark.IsRun, Represents;
    CycleKeepsMarked(y.c, y.marks, y.states, y.steps, j);
    AddressesDiffer(y.m.heap, y.addr, y.Before());
    assert b.addr in y.marks <==> o in y.Last().marked;
  }

  lemma AddressesDiffer(h: HeapGraph.Heap, addr: seq<nat>, f: FreeSet)
    requires Represents(h, addr, f)
    ensures |addr| == |h| && forall o, p :: 0 <= o < |addr| && 0 <= p < |addr| && addr[o] == addr[p] ==> o == p
  {
  }

  /**
   * The cycle of `FullGC::do_collect`, from whatever queues: workers mark in parallel, one of them finds marking
   * finished, and the marks drive a sweep of the whole heap. A block survives exactly when its object is reachable from
   * the roots or from the targets of work left over in the queues.
   */
  lemma SurvivesIffSourced(y: Cycle, o: nat, j: nat, b: Block)
    requires y.Ok() && IsBlock(y.Before(), y.addr, o, j, b)
    ensures y.Survives(j, b) <==>
            HeapGraph.Reachable(y.m.heap, MarkExact.Sources(y.m, y.roots, y.marking[0]), o)
  {
    hide HeapInv, Next, Represents;
    SurvivesIffMarked(y, o, j, b);
    var w: nat :| w < |y.Last().workers| && y.Last().workers[w].phase.Exited?;
    MarkExact.MarkingFromLeftOvers(y.m, y.roots, y.marking, y.moves, |y.moves|, w);
  }

  /** Every block survives exactly when its object is reachable from the roots. */
  ghost predicate CollectsExactly(y: Cycle)
    requires |y.states| == |y.steps| + 1
  {
    forall o: nat, j: nat, b :: IsBlock(y.Before(), y.addr, o, j, b) ==>
      (y.Survives(j, b) <==> HeapGraph.Reachable(y.m.heap, y.roots, o))
  }

  lemma ExactMeansMarked(y: Cycle)
    requires y.Ok() && CollectsExactly(y)
    ensures forall o: nat :: o < |y.addr| ==> (o in y.Last().marked <==> HeapGraph.Reachable(y.m.heap, y.roots, o))
  {
    CycleShape(y);
    hide HeapInv, Next, ParallelMark.IsRun, IsCycle, Represents;
    forall o: nat | o < |y.addr| ensures o in y.Last().marked <==> HeapGraph.Reachable(y.m.heap, y.roots, o) {
      assert Allocated(y.Before(), y.addr, o);
      var j: nat, b :| IsBlock(y.Before(), y.addr, o, j, b);
      SurvivesIffMarked(y, o, j, b);
    }
  }

  /**
   * The collector keeps exactly the reachable blocks if and only if every object that left-over work points to is
   * reachable from the roots.
   */
  lemma CollectionExactIff(y: Cycle)
    requires y.Ok()
    ensures CollectsExactly(y) <==> forall t :: t in y.LeftTargets() ==> HeapGraph.Reachable(y.m.heap, y.roots, t)
  {
    var w: nat :| w < |y.Last().workers| && y.Last().workers[w].phase.Exited?;
    MarkExact.MarkingExactIff(y.m, y.roots, y.marking, y.moves, |y.moves|, w);
    MarkExact.MarkingFromLeftOvers(y.m, y.roots, y.marking, y.moves, |y.moves|, w);
    CycleShape(y);
    hide HeapInv, Next, ParallelMark.IsRun, Represents, IsCycle, HeapGraph.Reachable;
    if CollectsExactly(y) {
      ExactMeansMarked(y);
      forall t | t in y.LeftTargets() ensures HeapGraph.Reachable(y.m.heap, y.roots, t) {
        MarkExact.SourceIsReachable(y.m.heap, MarkExact.Sources(y.m, y.roots, y.marking[0]), t);
      }
    } else {
      var o: nat, j: nat, b :| IsBlock(y.Before(), y.addr, o, j, b) &&
        !(y.Survives(j, b) <==> HeapGraph.Reachable(y.m.heap, y.roots, o));
      SurvivesIffMarked(y, o, j, b);
    }
  }

  /** After a marking that was cancelled with a task for a dead object, the block that object points to survives. */
  lemma LeftOverKeepsDead(y: Cycle, j: nat, b: Block)
    requires y.Ok() && y.m == MarkRestart.DeadPair() && y.roots == {}
    requires y.marking == MarkRestart.LeftOverStates() && y.moves == MarkRestart.LeftOverSteps()
    requires IsBlock(y.Before(), y.addr, 1, j, b)
    ensures y.Survives(j, b) && !HeapGraph.Reachable(y.m.heap, y.roots, 1)
  {
    hide HeapInv, Next, Represents, IsCycle, MarkRestart.DeadPair, HeapGraph.Reachable;
    CycleShape(y);
    SurvivesIffMarked(y, 1, j, b);
    MarkRestart.DeadObjectMarks();
  }

  /** With nothing left over, a block survives exactly when its object is reachable from the roots. */
  lemma SurvivesIffReachable(y: Cycle, o: nat, j: nat, b: Block)
    requires y.Ok() && ParallelMark.Seeded(y.m, y.roots, y.marking[0]) && IsBlock(y.Before(), y.addr, o, j, b)
    ensures y.Survives(j, b) <==> HeapGraph.Reachable(y.m.heap, y.roots, o)
  {
    hide HeapInv, Next, Represents, IsCycle;
    assert y.LeftTargets() == {};
    CollectionExactIff(y);
  }
}

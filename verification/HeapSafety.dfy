/** What holds in every reachable state of the heap, and what each step does to the objects. */
module HeapSafety {
  import opened Powers
  import opened Tiling
  import opened FreeListSpec
  import opened RegionModel
  import opened Sweeper
  import opened FreeSetModel
  import opened Humongous
  import opened HeapRun
  import opened HeapInvariant

  lemma RegionOf(c: Config, s: Heap, j: nat)
    requires HeapInv(c, s) && j < c.count
    ensures RegionOk(c, j, s.free.regions[j], AllTails(c, s.tlabs)[j])
  {
    hide Tails, RunsOk, ReachOk, BitOk;
  }

  lemma TiledRegion(c: Config, s: Heap, i: nat)
    requires HeapInv(c, s) && i < c.count == |s.free.regions| && s.free.regions[i].kind.Regular?
    ensures RegularOk(Bottom(c, i), Top(c, i), s.free.regions[i], Tails(s.tlabs, i))
  {
    hide Inv, Tails, TlabsOk, Occupied;
    RegularOf(c, s.free, AllTails(c, s.tlabs), i);
  }

  /** Objects, unused buffer ends and free entries tile every Regular region, whatever the threads did. */
  lemma RegionsAreTiled(c: Config, states: seq<Heap>, steps: seq<Step>, k: nat, i: nat)
    requires CarefulRun(c, states, steps) && k < |states| && i < c.count
    ensures var s := states[k];
            |s.free.regions| == c.count &&
            (s.free.regions[i].kind.Regular? ==>
               Tiles(Bottom(c, i), Top(c, i), Layout(s.free.regions[i], Tails(s.tlabs, i))) &&
               HeadersOk(s.free.regions[i]))
  {
    hide CarefulRun, HeapInv;
    InvRun(c, states, steps, k);
    TableSize(c, states[k]);
    if states[k].free.regions[i].kind.Regular? {
      TiledRegion(c, states[k], i);
    }
  }

  /**
   * A set bit means that the region is not waiting for the sweeper, has room, and lies within the cached bounds, so the
   * assertions of `try_allocate_in` hold; and no buffer in use lies in a region that waits for the sweeper.
   */
  lemma BitsAreSafe(c: Config, states: seq<Heap>, steps: seq<Step>, k: nat, i: nat)
    requires CarefulRun(c, states, steps) && k < |states| && i < c.count
    ensures var f := states[k].free;
            |f.regions| == |f.bits| == c.count &&
            (f.bits[i] ==> !f.regions[i].toSweep && f.left <= i <= f.right &&
                           var r := f.regions[i];
                           r.IsEmpty() || r.kind.Trash? || (r.kind.Regular? && Blocks(r.lists) != {}))
    ensures forall t :: 0 <= t < |states[k].tlabs| && states[k].tlabs[t].Tlab? ==>
              states[k].tlabs[t].region < c.count && !states[k].free.regions[states[k].tlabs[t].region].toSweep
  {
    InvRun(c, states, steps, k);
    hide CarefulRun, RegionOk, RunsOk, ReachOk, Reaches, Blocks;
    var s := states[k];
    assert s.free.bits[i] ==> BitOk(c, s.free, i);
    RegionOf(c, s, i);
    if s.free.regions[i].kind.Regular? {
      RoomMeansBlocks(c, i, s.free.regions[i], AllTails(c, s.tlabs)[i]);
    }
    assert forall t :: 0 <= t < |s.tlabs| ==> TlabOk(c, s.free, s.tlabs[t]);
  }

  // ---------------------------------------------------------------------------------------------
  // The conditions of the steps hold whenever the source takes them
  // ---------------------------------------------------------------------------------------------

  lemma BitCanTry(c: Config, s: Heap, i: nat, n: nat)
    requires HeapInv(c, s) && i < c.count == |s.free.bits| && s.free.bits[i] && 0 < n <= c.threshold && n % GRANULE == 0
    ensures CanTry(c, s, i, n)
  {
    hide Usable, RegionOk, RunsOk, ReachOk, Tails, BitOk, TlabsOk, Occupied;
    BitIsUsable(c, s.free, AllTails(c, s.tlabs), i);
  }

  lemma BucketsOf(c: Config, s: Heap, i: nat)
    requires HeapInv(c, s) && i < c.count == |s.free.regions|
    ensures Pow2(|s.free.regions[i].lists.buckets|) == 2 * c.size
  {
    RegionOf(c, s, i);
    assert Pow2(c.log2 + 1) == 2 * Pow2(c.log2);
  }

  /** A buffer in use can be retired exactly when its unused end is below two regions: larger blocks have no bucket. */
  lemma CanRetireIff(c: Config, s: Heap, t: nat)
    requires HeapInv(c, s) && t < |s.tlabs| && s.tlabs[t].Tlab?
    ensures CanRetire(s, t) <==> s.tlabs[t].end - s.tlabs[t].top < 2 * c.size
  {
    TlabFacts(c, s, t);
    BucketsOf(c, s, s.tlabs[t].region);
    hide HeapInv, Pow2, TlabOk;
  }

  lemma SweepIsReady(c: Config, s: Heap, i: nat)
    requires HeapInv(c, s) && i < c.count == |s.free.regions| && s.free.regions[i].toSweep
    ensures Sweepable(s.free.regions[i])
    ensures s.free.regions[i].kind.Regular? ==> RegularOk(Bottom(c, i), Top(c, i), s.free.regions[i], {})
  {
    hide Tails;
    RegionOf(c, s, i);
  }

  /**
   * In every reachable state: `try_allocate_in` can be called on any region whose bit is set; a buffer in use can be
   * retired if and only if its unused end is smaller than two regions; and a region that waits for the sweeper is
   * humongous or meets the precondition of `sweep_region`.
   */
  lemma StepsAreReady(c: Config, states: seq<Heap>, steps: seq<Step>, k: nat, i: nat, n: nat, t: nat)
    requires CarefulRun(c, states, steps) && k < |states| && i < c.count && 0 < n <= c.threshold && n % GRANULE == 0
    ensures var s := states[k];
            |s.free.regions| == |s.free.bits| == c.count &&
            (s.free.bits[i] ==> CanTry(c, s, i, n)) &&
            (t < |s.tlabs| && s.tlabs[t].Tlab? ==>
               (CanRetire(s, t) <==> s.tlabs[t].end - s.tlabs[t].top < 2 * c.size)) &&
            (s.free.regions[i].toSweep && !s.free.regions[i].kind.HumongousStart? ==>
               RegularOk(Bottom(c, i), Top(c, i), s.free.regions[i], {}))
  {
    hide CarefulRun, HeapInv, CanTry, RegularOk, CanRetire;
    InvRun(c, states, steps, k);
    var s := states[k];
    TableSize(c, s);
    if s.free.bits[i] {
      BitCanTry(c, s, i, n);
    }
    if s.free.regions[i].toSweep {
      SweepIsReady(c, s, i);
    }
    if t < |s.tlabs| && s.tlabs[t].Tlab? {
      CanRetireIff(c, s, t);
    }
  }

  /** A heap with every region empty, the first ones committed, as it is set up. */
  function FreshRegions(c: Config, committed: nat): seq<Region> {
    seq(c.count, i =>
      Region(if i < committed then EmptyCommitted else EmptyUncommitted, Empty(c.log2 + 1), {}, map[], false, {}))
  }

  function StartHeap(c: Config, committed: nat, threads: nat): Heap
    requires c.count > 0
  {
    Heap(Rebuild(c, FreeSet(FreshRegions(c, committed), [], 0, 0)), seq(threads, _ => NoTlab), Away)
  }

  lemma RebuildKeepsRegions(c: Config, f: FreeSet)
    requires |f.regions| == c.count > 0
    ensures Rebuild(c, f).regions == f.regions
  {
  }

  /** Setting up the heap, with any number of regions committed, gives a state that runs start from. */
  lemma StartIsInit(c: Config, committed: nat, threads: nat)
    requires ConfigOk(c)
    ensures Init(c, StartHeap(c, committed, threads))
  {
    EmptyOk(c.log2 + 1);
    RebuildKeepsRegions(c, FreeSet(FreshRegions(c, committed), [], 0, 0));
    hide Ok, Empty, Capacity;
  }

  /** The source's free list, which cuts sizes to 32 bits, has a bucket for the block of the untouched region i. */
  predicate FirstBlockHasBucket(c: Config, s: Heap, i: nat)
    requires i < |s.free.regions|
  {
    BucketIndex(c.size) < |s.free.regions[i].lists.buckets|
  }

  lemma FreshBuckets(c: Config, committed: nat, threads: nat)
    requires c.count > 0
    ensures var regions := StartHeap(c, committed, threads).free.regions;
            |regions| == c.count && forall i :: 0 <= i < c.count ==> |regions[i].lists.buckets| == c.log2 + 1
  {
    RebuildKeepsRegions(c, FreeSet(FreshRegions(c, committed), [], 0, 0));
    hide Rebuild;
  }

  /** The first allocation in any region of a fresh heap finds a bucket if and only if regions are below 4 GB. */
  lemma FreshHeapServesIff(c: Config, committed: nat, threads: nat, i: nat)
    requires ConfigShape(c) && c.log2 < 64 && i < c.count
    ensures |StartHeap(c, committed, threads).free.regions| == c.count
    ensures FirstBlockHasBucket(c, StartHeap(c, committed, threads), i) <==> ConfigOk(c)
  {
    hide StartHeap, BucketIndex;
    FreshBuckets(c, committed, threads);
    PowerBucket(c.log2);
  }

  /** With sixteen regions of 4 GB every first allocation asks for bucket 64 of 33. */
  lemma FourGigabyteRegionsFail(c: Config, i: nat)
    requires c == Config(TWO32, 32, TWO32, 16, TWO32, 4096) && i < 16
    ensures ConfigShape(c) && |StartHeap(c, 0, 1).free.regions| == 16 && BucketIndex(c.size) == 64
    ensures |StartHeap(c, 0, 1).free.regions[i].lists.buckets| == 33 && !FirstBlockHasBucket(c, StartHeap(c, 0, 1), i)
  {
    hide StartHeap, BucketIndex;
    Pow2Of31();
    FreshBuckets(c, 0, 1);
    PowerBucket(32);
  }

  /** In a fresh heap every region may be allocated from. */
  lemma StartIsFree(c: Config, committed: nat, threads: nat, j: nat)
    requires ConfigOk(c) && j < c.count
    ensures RunFree(StartHeap(c, committed, threads).free, j)
    ensures StartHeap(c, committed, threads).free.regions == FreshRegions(c, committed)
  {
    var f := FreeSet(FreshRegions(c, committed), [], 0, 0);
    RebuildKeepsRegions(c, f);
    assert ListsOk(f.regions);
    RebuildIsExact(c, f, j);
    hide Rebuild, Empty;
  }

  // ---------------------------------------------------------------------------------------------
  // Which objects a step creates and frees
  // ---------------------------------------------------------------------------------------------

  /** What a sweep leaves of a region's objects: of a humongous run everything or nothing, by its first header. */
  ghost function Kept(c: Config, i: nat, r: Region, marks: set<nat>): set<Block> {
    if !r.kind.HumongousStart? then Survivors(r.objects, marks)
    else if Bottom(c, i) in marks then r.objects else {}
  }

  /**
   * What a sweep makes of region i: a Regular region without survivors becomes trash, a humongous run whose first
   * header is unmarked too, and everything else stays what it was.
   */
  ghost function KindKept(c: Config, i: nat, r: Region, marks: set<nat>): Kind {
    if (r.kind.Regular? && Survivors(r.objects, marks) == {}) || (r.kind.HumongousStart? && Bottom(c, i) !in marks)
    then Trash else r.kind
  }

  lemma KeptIsMarked(c: Config, s: Heap, i: nat, marks: set<nat>)
    requires HeapInv(c, s) && i < c.count == |s.free.regions| && Fits(c)
    ensures Kept(c, i, s.free.regions[i], marks) == Survivors(s.free.regions[i].objects, marks)
  {
    RegionOf(c, s, i);
    hide HeapInv, RegularOk, Bottom;
  }

  lemma SweepEffect(c: Config, s: Heap, i: nat, marks: set<nat>, swept: Region, after: Heap, j: nat)
    requires HeapInv(c, s) && NextSweep(c, s, i, marks, swept, after) && j < |s.free.regions|
    ensures |after.free.regions| == |s.free.regions|
    ensures after.free.regions[j].objects
         == if j == i then Kept(c, i, s.free.regions[i], marks) else s.free.regions[j].objects
    ensures after.free.regions[j].toSweep == (j != i && s.free.regions[j].toSweep)
    ensures after.free.regions[j].toSweep ==> after.free.regions[j] == s.free.regions[j]
    ensures j == i ==> after.free.regions[j].kind == KindKept(c, i, s.free.regions[i], marks)
    ensures j != i ==> after.free.regions[j].kind == s.free.regions[j].kind ||
                       (s.free.regions[j].kind.HumongousCont? && after.free.regions[j].kind.Trash?)
  {
    var f := s.free;
    TableSize(c, s);
    RegionOf(c, s, j);
    RegionOf(c, s, i);
    SpanOfStart(c, s, i);
    assert RunsOk(c, f.regions);
    hide HeapInv, RegularOk, Tails, Span, Bottom, Inv;
    if f.regions[i].kind.HumongousStart? && Bottom(c, i) !in marks {
      if i < j < i + Span(c, f.regions, i) {
        assert Owns(c, f.regions, i, j);
      }
    }
  }

  lemma SpanOfStart(c: Config, s: Heap, i: nat)
    requires HeapInv(c, s) && i < |s.free.regions|
    ensures c.size > 0 && (s.free.regions[i].kind.HumongousStart? ==> Span(c, s.free.regions, i) > 0)
  {
    RegionOf(c, s, i);
    if s.free.regions[i].kind.HumongousStart? {
      SpanIsPositive(c, s.free.regions, i, AllTails(c, s.tlabs)[i]);
    }
  }

  /**
   * A sweep of region i changes the objects of that region only. When buffers fit it frees exactly the unmarked ones;
   * otherwise a run that serves as a buffer is kept or freed as a whole, whatever else is marked in it. The region
   * becomes trash exactly when nothing in it is kept.
   */
  lemma SweepFreesUnmarked(c: Config, s: Heap, i: nat, marks: set<nat>, swept: Region, after: Heap, j: nat)
    requires HeapInv(c, s) && NextSweep(c, s, i, marks, swept, after) && j < |s.free.regions|
    ensures |after.free.regions| == |s.free.regions|
    ensures after.free.regions[j].toSweep == (j != i && s.free.regions[j].toSweep)
    ensures after.free.regions[j].toSweep ==> after.free.regions[j] == s.free.regions[j]
    ensures j != i ==> after.free.regions[j].objects == s.free.regions[j].objects
    ensures after.free.regions[i].objects == Kept(c, i, s.free.regions[i], marks)
    ensures Fits(c) ==> after.free.regions[i].objects == Survivors(s.free.regions[i].objects, marks)
    ensures s.free.regions[i].kind.Regular? ==>
              after.free.regions[i].kind == if Survivors(s.free.regions[i].objects, marks) == {} then Trash else Regular
    ensures s.free.regions[i].kind.HumongousStart? ==>
              after.free.regions[i].kind == if Bottom(c, i) in marks then HumongousStart else Trash
    ensures j != i ==> after.free.regions[j].kind == s.free.regions[j].kind ||
                       (s.free.regions[j].kind.HumongousCont? && after.free.regions[j].kind.Trash?)
  {
    SweepPending(c, s, i, marks, swept, after);
    hide HeapInv, NextSweep, Kept;
    TableSize(c, s);
    SweepEffect(c, s, i, marks, swept, after, j);
    SweepEffect(c, s, i, marks, swept, after, i);
    if Fits(c) {
      KeptIsMarked(c, s, i, marks);
    }
  }

  lemma SweepPending(c: Config, s: Heap, i: nat, marks: set<nat>, swept: Region, after: Heap)
    requires NextSweep(c, s, i, marks, swept, after)
    ensures i < |s.free.regions| && s.free.regions[i].toSweep
  {
  }

  lemma VacantHasNoObjects(c: Config, i: nat, r: Region, tails: set<Tile>)
    requires RegionOk(c, i, r, tails) && (r.IsEmpty() || r.kind.Trash?)
    ensures r.objects == {}
  {
  }

  lemma TryKeepsObjects(c: Config, s: Heap, i: nat, n: nat, j: nat)
    requires HeapInv(c, s) && CanTry(c, s, i, n) && j < |s.free.regions|
    ensures |Try(c, s, i, n).after.regions| == |s.free.regions|
    ensures Try(c, s, i, n).after.regions[j].objects == s.free.regions[j].objects
  {
    hide HeapInv, Inv, Usable, Try, Tails, TryAllocateIn;
    TryFrom(c, s, i, n, Tail(0));
  }

  lemma TakeRunKeepsObjects(c: Config, s: Heap, beg: nat, num: nat, n: nat, j: nat)
    requires HeapInv(c, s) && c.size > 0 && s.free.left <= |s.free.bits| && s.free.right < |s.free.bits|
    requires FreeRun(s.free, beg, num) && j < |s.free.regions|
    ensures var g := TakeRun(c, s.free, beg, num, n);
            |g.regions| == |s.free.regions| && s.free.regions[j].objects <= g.regions[j].objects
  {
    TableSize(c, s);
    hide HeapInv, Required, Bottom;
    if beg <= j < beg + num {
      assert RunFree(s.free, j);
      RegionOf(c, s, j);
      VacantHasNoObjects(c, j, s.free.regions[j], AllTails(c, s.tlabs)[j]);
    }
  }

  lemma DecommitKeepsObjects(c: Config, s: Heap, after: Heap, j: nat)
    requires HeapInv(c, s) && NextDecommit(c, s, after) && VacantAtLock(s) && j < |s.free.regions|
    ensures |after.free.regions| == |s.free.regions| && s.free.regions[j].objects <= after.free.regions[j].objects
  {
    TableSize(c, s);
    var i := s.uncommit.region;
    NoTails(s.tlabs, i);
    RegionOf(c, s, i);
    hide HeapInv, RegionOk;
    DecommittedOk(c, i, s.free.regions[i], AllTails(c, s.tlabs)[i]);
  }

  /** Nothing but the sweeper ever frees an object, unless a decommit hits a region in use. */
  lemma OnlySweepFrees(c: Config, s: Heap, step: Step, after: Heap, j: nat)
    requires HeapInv(c, s) && Next(c, s, step, after) && !step.Sweep? && j < |s.free.regions|
    requires step.Decommit? ==> VacantAtLock(s)
    ensures |after.free.regions| == |s.free.regions| && s.free.regions[j].objects <= after.free.regions[j].objects
  {
    hide HeapInv, Try, CanTry, Tails, Required, Rebuild, TakeRun, Bottom, NextDecommit;
    match step
    case Shared(t, i, n) => TryKeepsObjects(c, s, i, n, j);
    case Refill(t, i, want) =>
      if Fits(c) {
        TryKeepsObjects(c, s, i, c.buffer, j);
      } else {
        TakeRunKeepsObjects(c, s, i, Required(c, c.buffer), want, j);
      }
    case Bump(t, n) =>
    case Retire(t) =>
    case Large(beg, n) => TakeRunKeepsObjects(c, s, beg, Required(c, n), n, j);
    case PrepareSweep =>
    case RebuildSet => RebuildKeepsRegions(c, s.free);
    case Look(_) =>
    case Skip =>
    case Decommit => DecommitKeepsObjects(c, s, after, j);
  }
}

/**
 * Uncommitting empty regions. The check that a region is empty and the decommit under the lock are separate steps, and
 * the repeated check under the lock guards only the decision to stop.
 */
module Uncommit {
  import opened Tiling
  import opened FreeListSpec
  import opened RegionModel
  import opened FreeSetModel
  import opened Humongous
  import opened HeapRun
  import opened HeapInvariant
  import opened HeapSafety

  /** No region has lost an object. */
  ghost predicate KeepsObjects(s: Heap, after: Heap) {
    |after.free.regions| == |s.free.regions| &&
    forall j :: 0 <= j < |s.free.regions| ==> s.free.regions[j].objects <= after.free.regions[j].objects
  }

  /** A region that is still empty when the lock is taken is vacant; when buffers fit, so is a trash region. */
  lemma StillEmptyIsVacant(c: Config, s: Heap)
    requires HeapInv(c, s) && s.uncommit.Looked? && s.uncommit.region < |s.free.regions|
    requires var r := s.free.regions[s.uncommit.region];
             r.IsEmpty() || (r.kind.Trash? && Fits(c))
    ensures VacantAtLock(s)
  {
    TableSize(c, s);
    RegionOf(c, s, s.uncommit.region);
    assert forall t :: 0 <= t < |s.tlabs| ==> TlabOk(c, s.free, s.tlabs[t]);
    hide HeapInv, Reaches, Bottom;
  }

  lemma StillOwned(c: Config, regions: seq<Region>, i: nat, r: Region, o: nat)
    requires c.size > 0 && Owns(c, regions, o, i)
    ensures Owns(c, regions[i := r], o, i)
  {
    hide Span;
    SpanSame(c, regions, regions[i := r], o);
  }

  lemma OwnedIsCont(c: Config, regions: seq<Region>, i: nat, r: Region)
    requires c.size > 0 && Fits(c) && RunsOk(c, regions) && i < |regions| && regions[i].kind.HumongousCont?
    requires RunsOk(c, regions[i := r])
    ensures r.kind.HumongousCont?
  {
    hide Span;
    var o: nat :| Owns(c, regions, o, i);
    StillOwned(c, regions, i, r, o);
  }

  /**
   * Region i is a continuation that nobody uses: no run, no object of a run and no buffer reaches it. It exists only
   * when buffers exceed the threshold, after a run that served as a buffer was swept by its first header.
   */
  ghost predicate Orphan(c: Config, s: Heap, i: nat) {
    c.size > 0 && i < |s.free.regions| && s.free.regions[i].kind.HumongousCont? &&
    (forall o: nat :: !Owns(c, s.free.regions, o, i)) &&
    (forall o: nat, b :: o < i && s.free.regions[o].kind.HumongousStart? && b in s.free.regions[o].objects ==>
       b.End() <= Bottom(c, i)) &&
    forall t :: 0 <= t < |s.tlabs| && s.tlabs[t].Tlab? && s.tlabs[t].region < i ==> s.tlabs[t].end <= Bottom(c, i)
  }

  lemma NotAContinuation(c: Config, regions: seq<Region>, o: nat, end: nat, i: nat)
    requires Reaches(c, regions, o, end) && o < i < |regions| && !regions[i].kind.HumongousCont?
    ensures end <= Bottom(c, i)
  {
  }

  lemma StaysAfter(c: Config, regions: seq<Region>, i: nat, r: Region, o: nat, end: nat)
    requires i < |regions| && Reaches(c, regions, o, end) && (o < i ==> end <= Bottom(c, i))
    ensures Reaches(c, regions[i := r], o, end)
  {
    hide Bottom;
  }

  lemma HarmlessMeansOrphan(c: Config, s: Heap, after: Heap)
    requires HeapInv(c, s) && NextDecommit(c, s, after) && HeapInv(c, after)
    requires s.free.regions[s.uncommit.region].kind.HumongousCont?
    ensures Orphan(c, s, s.uncommit.region)
  {
    TableSize(c, s);
    var i, regions, now := s.uncommit.region, s.free.regions, after.free.regions;
    assert RunsOk(c, regions) && RunsOk(c, now) && ReachOk(c, now);
    assert forall t :: 0 <= t < |s.tlabs| ==> TlabOk(c, after.free, s.tlabs[t]);
    assert forall t :: 0 <= t < |s.tlabs| ==> TlabOk(c, s.free, s.tlabs[t]);
    hide HeapInv, Reaches, Bottom, Span, Empty;
    if Fits(c) {
      OwnedIsCont(c, regions, i, now[i]);
    }
    forall o: nat ensures !Owns(c, regions, o, i) {
      if Owns(c, regions, o, i) {
        StillOwned(c, regions, i, now[i], o);
      }
    }
    forall o: nat, b | o < i && regions[o].kind.HumongousStart? && b in regions[o].objects
      ensures b.End() <= Bottom(c, i)
    {
      assert b in now[o].objects;
      NotAContinuation(c, now, o, b.End(), i);
    }
    forall t | 0 <= t < |s.tlabs| && s.tlabs[t].Tlab? && s.tlabs[t].region < i
      ensures s.tlabs[t].end <= Bottom(c, i)
    {
      NotAContinuation(c, now, s.tlabs[t].region, s.tlabs[t].end, i);
    }
  }

  lemma HarmlessMeansVacant(c: Config, s: Heap, after: Heap)
    requires HeapInv(c, s) && NextDecommit(c, s, after) && HeapInv(c, after) && KeepsObjects(s, after)
    requires !s.free.regions[s.uncommit.region].kind.HumongousCont?
    ensures VacantAtLock(s)
  {
    var i := s.uncommit.region;
    TableSize(c, s);
    TableSize(c, after);
    RegionOf(c, after, i);
    OccupiedAtStart(s.free, i);
    assert forall t :: 0 <= t < |after.tlabs| ==> TlabOk(c, after.free, after.tlabs[t]);
    hide HeapInv, Empty, Reaches, Bottom;
  }

  lemma OrphanRuns(c: Config, s: Heap, i: nat, r: Region)
    requires Orphan(c, s, i) && RunsOk(c, s.free.regions) && r.kind.EmptyUncommitted?
    ensures RunsOk(c, s.free.regions[i := r]) && !Fits(c)
  {
    hide Span;
    var regions, now := s.free.regions, s.free.regions[i := r];
    forall o: nat | o < |now| && now[o].kind.HumongousStart? ensures o + Span(c, now, o) <= |now| {
      SpanSame(c, regions, now, o);
    }
    forall o: nat, j: nat | Owns(c, now, o, j) ensures now[j].kind.HumongousCont? {
      SpanSame(c, regions, now, o);
      assert Owns(c, regions, o, j);
    }
  }

  lemma OrphanReach(c: Config, s: Heap, i: nat, r: Region)
    requires Orphan(c, s, i) && ReachOk(c, s.free.regions) && r.kind.EmptyUncommitted?
    ensures ReachOk(c, s.free.regions[i := r])
  {
    hide Bottom, Owns;
    var regions, now := s.free.regions, s.free.regions[i := r];
    forall o: nat, b | o < |now| && now[o].kind.HumongousStart? && b in now[o].objects
      ensures b.addr >= Bottom(c, o) && Reaches(c, now, o, b.End())
    {
      StaysAfter(c, regions, i, r, o, b.End());
    }
  }

  lemma OrphanTlab(c: Config, s: Heap, i: nat, r: Region, t: nat)
    requires Orphan(c, s, i) && !Fits(c) && t < |s.tlabs| && TlabOk(c, s.free, s.tlabs[t])
    ensures TlabOk(c, WithRegion(s.free, i, r), s.tlabs[t])
  {
    hide Bottom, Owns, Reaches;
    if s.tlabs[t].Tlab? {
      StaysAfter(c, s.free.regions, i, r, s.tlabs[t].region, s.tlabs[t].end);
    }
  }

  lemma OrphanIsHarmless(c: Config, s: Heap, after: Heap)
    requires HeapInv(c, s) && NextDecommit(c, s, after) && Orphan(c, s, s.uncommit.region)
    ensures HeapInv(c, after) && KeepsObjects(s, after)
  {
    var f, i := s.free, s.uncommit.region;
    var r, tails := Decommitted(f.regions[i]), AllTails(c, s.tlabs);
    assert RegionOk(c, i, f.regions[i], tails[i]);
    EmptyOk(|f.regions[i].lists.buckets|);
    OrphanRuns(c, s, i, r);
    OrphanReach(c, s, i, r);
    hide RunsOk, ReachOk, Tails, Bottom, Ok, Blocks, Tiles;
    assert RegionOk(c, i, r, tails[i]);
    hide RegionOk;
    OneRegion(c, f, tails, after.free, i, r, tails[i]);
    assert tails[i := tails[i]] == tails;
    forall k | 0 <= k < c.count && after.free.bits[k] ensures BitOk(c, after.free, k) {
      assert BitOk(c, f, k);
    }
    forall t | 0 <= t < |s.tlabs| ensures TlabOk(c, after.free, s.tlabs[t]) {
      assert TlabOk(c, f, s.tlabs[t]);
      OrphanTlab(c, s, i, r, t);
    }
  }

  lemma VacantIsHarmless(c: Config, s: Heap, after: Heap)
    requires HeapInv(c, s) && NextDecommit(c, s, after) && VacantAtLock(s)
    ensures HeapInv(c, after) && KeepsObjects(s, after)
  {
    InvDecommit(c, s, after);
    forall j | 0 <= j < |s.free.regions|
      ensures |after.free.regions| == |s.free.regions| && s.free.regions[j].objects <= after.free.regions[j].objects
    {
      DecommitKeepsObjects(c, s, after, j);
    }
  }

  lemma HarmlessMeansUnused(c: Config, s: Heap, after: Heap)
    requires HeapInv(c, s) && NextDecommit(c, s, after) && HeapInv(c, after) && KeepsObjects(s, after)
    ensures VacantAtLock(s) || Orphan(c, s, s.uncommit.region)
  {
    hide HeapInv, KeepsObjects, VacantAtLock, Orphan;
    if s.free.regions[s.uncommit.region].kind.HumongousCont? {
      HarmlessMeansOrphan(c, s, after);
    } else {
      HarmlessMeansVacant(c, s, after);
    }
  }

  /**
   * A decommit keeps the heap consistent and loses no object exactly when, at the time the lock is held, the region is
   * vacant or a continuation that nobody uses.
   */
  lemma DecommitSafeIff(c: Config, s: Heap, after: Heap)
    requires HeapInv(c, s) && NextDecommit(c, s, after)
    ensures HeapInv(c, after) && KeepsObjects(s, after) <==> VacantAtLock(s) || Orphan(c, s, s.uncommit.region)
  {
    hide HeapInv, VacantAtLock, KeepsObjects, Orphan;
    if VacantAtLock(s) {
      VacantIsHarmless(c, s, after);
    } else if Orphan(c, s, s.uncommit.region) {
      OrphanIsHarmless(c, s, after);
    } else if HeapInv(c, after) && KeepsObjects(s, after) {
      HarmlessMeansUnused(c, s, after);
    }
  }

  // ---------------------------------------------------------------------------------------------
  // An object lost
  // ---------------------------------------------------------------------------------------------

  /** An allocation between the check and the lock. */
  ghost predicate LosesObject(c: Config, states: seq<Heap>, steps: seq<Step>, b: Block) {
    IsRun(c, states, steps) && steps == [Look(0), Shared(0, 0, GRANULE), Decommit] &&
    |states[2].free.regions| == |states[3].free.regions| > 0 &&
    b in states[2].free.regions[0].objects && b !in states[3].free.regions[0].objects
  }

  lemma SharedIsPlaced(c: Config, s: Heap)
    requires HeapInv(c, s) && RunFree(s.free, 0) && c.threshold >= GRANULE
    ensures c.count > 0 && CanTry(c, s, 0, GRANULE) && Try(c, s, 0, GRANULE).Placed?
    ensures |Try(c, s, 0, GRANULE).after.regions| == c.count
  {
    TableSize(c, s);
    hide Inv, TlabsOk, Occupied, Usable, Tails, TryAllocateIn;
    BitCanTry(c, s, 0, GRANULE);
    hide CanTry, Try;
    TryFrom(c, s, 0, GRANULE, Tail(0));
    SizeIsWhole(c, s);
  }

  lemma SizeIsWhole(c: Config, s: Heap)
    requires HeapInv(c, s)
    ensures c.size >= GRANULE
  {
  }

  lemma SharedIsStep(c: Config, s: Heap) returns (after: Heap, b: Block)
    requires HeapInv(c, s) && RunFree(s.free, 0) && c.threshold >= GRANULE
    ensures NextShared(c, s, 0, GRANULE, after) && after.uncommit == s.uncommit
    ensures |after.free.regions| == c.count && c.count > 0 && b in after.free.regions[0].objects
  {
    hide HeapInv, CanTry, Try;
    SharedIsPlaced(c, s);
    var out := Try(c, s, 0, GRANULE);
    b := Block(out.addr, GRANULE);
    after := s.(free := WithRegion(out.after, 0, NewObject(out.after.regions[0], b)));
  }

  lemma LookIsStep(c: Config) returns (s: Heap, after: Heap)
    requires ConfigOk(c)
    ensures Init(c, s) && NextLook(c, s, 0, after) && HeapInv(c, after) && RunFree(after.free, 0)
    ensures after.uncommit == Looked(0)
  {
    s := StartHeap(c, 1, 1);
    StartIsInit(c, 1, 1);
    StartIsFree(c, 1, 1, 0);
    hide StartHeap, Init, HeapInv;
    InvInit(c, s);
    after := s.(uncommit := Looked(0));
    SameFree(c, s, after);
  }

  lemma DecommitIsStep(c: Config, s: Heap) returns (after: Heap)
    requires s.uncommit == Looked(0) && |s.free.regions| > 0
    ensures NextDecommit(c, s, after) && |after.free.regions| == |s.free.regions| && after.free.regions[0].objects == {}
  {
    after := s.(free := WithRegion(s.free, 0, Decommitted(s.free.regions[0])), uncommit := Away);
  }

  /** In every configuration that can allocate at all: look, allocate, decommit. The new object is gone, unswept. */
  lemma UncommitLosesObject(c: Config) returns (states: seq<Heap>, steps: seq<Step>, b: Block)
    requires ConfigOk(c) && c.threshold >= GRANULE
    ensures LosesObject(c, states, steps, b)
  {
    hide Init, HeapInv, NextShared, NextDecommit, NextLook, RunFree;
    var s0, s1 := LookIsStep(c);
    var s2;
    s2, b := SharedIsStep(c, s1);
    var s3 := DecommitIsStep(c, s2);
    states := [s0, s1, s2, s3];
    steps := [Look(0), Shared(0, 0, GRANULE), Decommit];
    assert Next(c, s0, Look(0), s1) && Next(c, s1, Shared(0, 0, GRANULE), s2) && Next(c, s2, Decommit, s3);
  }
}

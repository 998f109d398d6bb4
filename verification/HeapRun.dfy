/** Whole runs of the heap: mutators allocating, with and without buffers, while the collector prepares and sweeps. */
module HeapRun {
  import opened Tiling
  import opened FreeListSpec
  import opened RegionModel
  import opened FreeSetModel
  import opened Humongous

  /** A thread's allocation buffer: [top, end) is unused. */
  datatype Tlab = NoTlab | Tlab(region: nat, start: nat, top: nat, end: nat)

  /** The uncommitting thread: it has seen an empty committed region and is about to take the lock. */
  datatype Uncommit = Away | Looked(region: nat)

  datatype Heap = Heap(free: FreeSet, tlabs: seq<Tlab>, uncommit: Uncommit)

  /**
   * `Shared` is one `try_allocate_in` on region i for an object of n bytes. `Refill` obtains a buffer that begins with
   * an object of `want` bytes, from region i or, when buffers exceed the threshold, from the run that begins there.
   * `Sweep` carries the region that `sweep_region` leaves. `Look` is the unlocked check of the uncommitting thread,
   * `Skip` and `Decommit` what it may do under the lock.
   */
  datatype Step =
    | Shared(thread: nat, i: nat, n: nat)
    | Refill(thread: nat, i: nat, want: nat)
    | Bump(thread: nat, n: nat)
    | Retire(thread: nat)
    | Large(beg: nat, n: nat)
    | PrepareSweep
    | Sweep(i: nat, marks: set<nat>, swept: Region)
    | RebuildSet
    | Look(i: nat)
    | Skip
    | Decommit

  predicate HasTail(x: Tlab, i: nat) { x.Tlab? && x.region == i && x.top < x.end }

  function TailTile(x: Tlab, t: nat): Tile
    requires x.Tlab? && x.top <= x.end
  {
    Tile(Block(x.top, x.end - x.top), Tail(t))
  }

  ghost function Tails(tlabs: seq<Tlab>, i: nat): set<Tile> {
    set t: nat | t < |tlabs| && HasTail(tlabs[t], i) :: TailTile(tlabs[t], t)
  }

  ghost function AllTails(c: Config, tlabs: seq<Tlab>): seq<set<Tile>> {
    seq(c.count, i requires 0 <= i < c.count => Tails(tlabs, i))
  }

  // ---------------------------------------------------------------------------------------------
  // Steps
  // ---------------------------------------------------------------------------------------------

  function WithRegion(f: FreeSet, i: nat, r: Region): FreeSet
    requires i < |f.regions|
  {
    f.(regions := f.regions[i := r])
  }

  ghost predicate CanTry(c: Config, s: Heap, i: nat, n: nat) {
    i < |s.free.regions| == |s.free.bits| && s.free.left <= |s.free.bits| && s.free.right < |s.free.bits| &&
    s.free.bits[i] && Usable(c, s.free.regions[i], i, Tails(s.tlabs, i)) && 0 < n <= c.threshold && n % GRANULE == 0
  }

  ghost function Try(c: Config, s: Heap, i: nat, n: nat): Outcome
    requires CanTry(c, s, i, n)
  {
    TryAllocateIn(c, s.free, i, n, Tails(s.tlabs, i))
  }

  /** Allocation outside any buffer. */
  ghost predicate NextShared(c: Config, s: Heap, i: nat, n: nat, after: Heap) {
    CanTry(c, s, i, n) &&
    var out := Try(c, s, i, n);
    i < |out.after.regions| &&
    after == s.(free := if out.Failed? then out.after
                        else WithRegion(out.after, i, NewObject(out.after.regions[i], Block(out.addr, n))))
  }

  /** A thread without a buffer asks for one whose first object has `want` bytes. */
  predicate WantsBuffer(c: Config, s: Heap, t: nat, want: nat) {
    t < |s.tlabs| && s.tlabs[t].NoTlab? && 0 < want <= c.buffer && want % GRANULE == 0
  }

  function NewTlab(c: Config, i: nat, addr: nat, want: nat): Tlab {
    Tlab(i, addr, addr + want, addr + c.buffer)
  }

  /** A buffer from one region. */
  ghost predicate RefillSingle(c: Config, s: Heap, t: nat, i: nat, want: nat, after: Heap)
    requires t < |s.tlabs|
  {
    CanTry(c, s, i, c.buffer) &&
    var out := Try(c, s, i, c.buffer);
    i < |out.after.regions| &&
    after == if out.Failed? then s.(free := out.after)
             else s.(free := WithRegion(out.after, i, NewObject(out.after.regions[i], Block(out.addr, want))),
                     tlabs := s.tlabs[t := NewTlab(c, i, out.addr, want)])
  }

  /** The start of a run that has been taken for a buffer: the first object's start bit is set. */
  function BufferRun(c: Config, f: FreeSet, i: nat, want: nat): FreeSet
    requires c.size > 0 && f.left <= |f.bits| && f.right < |f.bits| && i < |f.regions|
  {
    var g := TakeRun(c, f, i, Required(c, c.buffer), want);
    WithRegion(g, i, g.regions[i].(starts := g.regions[i].starts + {Bottom(c, i)}))
  }

  /** A buffer above the humongous threshold: the request goes to `allocate_contiguous` like any other. */
  ghost predicate RefillRun(c: Config, s: Heap, t: nat, i: nat, want: nat, after: Heap)
    requires t < |s.tlabs|
  {
    c.size > 0 && s.free.left <= |s.free.bits| && s.free.right < |s.free.bits| && i < |s.free.regions| &&
    FreeRun(s.free, i, Required(c, c.buffer)) &&
    after == s.(free := BufferRun(c, s.free, i, want), tlabs := s.tlabs[t := NewTlab(c, i, Bottom(c, i), want)])
  }

  ghost predicate NextRefill(c: Config, s: Heap, t: nat, i: nat, want: nat, after: Heap) {
    WantsBuffer(c, s, t, want) &&
    if Fits(c) then RefillSingle(c, s, t, i, want, after) else RefillRun(c, s, t, i, want, after)
  }

  predicate CanBump(s: Heap, t: nat, n: nat) {
    t < |s.tlabs| && s.tlabs[t].Tlab? && 0 < n && n % GRANULE == 0 && s.tlabs[t].top + n <= s.tlabs[t].end &&
    s.tlabs[t].region < |s.free.regions|
  }

  function Bumped(s: Heap, t: nat, n: nat): Heap
    requires CanBump(s, t, n)
  {
    var x := s.tlabs[t];
    Heap(WithRegion(s.free, x.region, NewObject(s.free.regions[x.region], Block(x.top, n))),
         s.tlabs[t := x.(top := x.top + n)], s.uncommit)
  }

  /** `ThreadLocalAllocBuffer::allocate` when the request fits. */
  ghost predicate NextBump(c: Config, s: Heap, t: nat, n: nat, after: Heap) {
    CanBump(s, t, n) && after == Bumped(s, t, n)
  }

  /** A buffer that is used up is just dropped; an unused end needs a bucket. */
  predicate CanRetire(s: Heap, t: nat) {
    t < |s.tlabs| && s.tlabs[t].Tlab? && s.tlabs[t].top <= s.tlabs[t].end && s.tlabs[t].region < |s.free.regions| &&
    (s.tlabs[t].top == s.tlabs[t].end ||
     HasBucket(s.free.regions[s.tlabs[t].region].lists, s.tlabs[t].end - s.tlabs[t].top))
  }

  function Retired(s: Heap, t: nat): Heap
    requires CanRetire(s, t)
  {
    var x := s.tlabs[t];
    Heap(if x.top == x.end then s.free
         else WithRegion(s.free, x.region, GiveBack(s.free.regions[x.region], Block(x.top, x.end - x.top))),
         s.tlabs[t := NoTlab], s.uncommit)
  }

  /** `ThreadLocalAllocBuffer::retire` of a buffer that is in use. */
  ghost predicate NextRetire(c: Config, s: Heap, t: nat, after: Heap) {
    CanRetire(s, t) && after == Retired(s, t)
  }

  ghost predicate NextLarge(c: Config, s: Heap, beg: nat, n: nat, after: Heap) {
    c.size > 0 && n > c.threshold && s.free.left <= |s.free.bits| && s.free.right < |s.free.bits| &&
    FreeRun(s.free, beg, Required(c, n)) &&
    after == s.(free := TakeRun(c, s.free, beg, Required(c, n), n))
  }

  /** At a safepoint, after every buffer has been retired. */
  ghost predicate NextPrepare(c: Config, s: Heap, after: Heap) {
    (forall t :: 0 <= t < |s.tlabs| ==> s.tlabs[t].NoTlab?) && |s.free.regions| == |s.free.bits| &&
    after == s.(free := Prepare(s.free))
  }

  ghost predicate NextSweep(c: Config, s: Heap, i: nat, marks: set<nat>, swept: Region, after: Heap) {
    c.size > 0 && after == s.(free := after.free) && SweepDone(c, s.free, i, marks, swept, after.free)
  }

  /** After every region put up for sweeping has been swept. */
  ghost predicate NextRebuild(c: Config, s: Heap, after: Heap) {
    (forall j :: 0 <= j < |s.free.regions| ==> !s.free.regions[j].toSweep) && |s.free.regions| == c.count > 0 &&
    after == s.(free := Rebuild(c, s.free))
  }

  /** `entry_uncommit` before it takes the lock. */
  ghost predicate NextLook(c: Config, s: Heap, i: nat, after: Heap) {
    s.uncommit.Away? && i < |s.free.regions| && s.free.regions[i].kind.EmptyCommitted? &&
    after == s.(uncommit := Looked(i))
  }

  /** Under the lock, a region that is still empty may be spared because too little is committed. */
  ghost predicate NextSkip(c: Config, s: Heap, after: Heap) {
    s.uncommit.Looked? && s.uncommit.region < |s.free.regions| &&
    s.free.regions[s.uncommit.region].kind.EmptyCommitted? && after == s.(uncommit := Away)
  }

  /** `do_decommit`: the memory is gone, and with it whatever objects were there; the start bits stay. */
  function Decommitted(r: Region): Region {
    r.(kind := EmptyUncommitted, lists := Empty(|r.lists.buckets|), headers := map[], objects := {})
  }

  /** Under the lock, otherwise: the region is decommitted whatever its state is by now. */
  ghost predicate NextDecommit(c: Config, s: Heap, after: Heap) {
    s.uncommit.Looked? &&
    var i := s.uncommit.region;
    i < |s.free.regions| &&
    after == s.(free := WithRegion(s.free, i, Decommitted(s.free.regions[i])), uncommit := Away)
  }

  ghost predicate Next(c: Config, s: Heap, step: Step, after: Heap) {
    match step
    case Shared(t, i, n) => NextShared(c, s, i, n, after)
    case Refill(t, i, want) => NextRefill(c, s, t, i, want, after)
    case Bump(t, n) => NextBump(c, s, t, n, after)
    case Retire(t) => NextRetire(c, s, t, after)
    case Large(beg, n) => NextLarge(c, s, beg, n, after)
    case PrepareSweep => NextPrepare(c, s, after)
    case Sweep(i, marks, swept) => NextSweep(c, s, i, marks, swept, after)
    case RebuildSet => NextRebuild(c, s, after)
    case Look(i) => NextLook(c, s, i, after)
    case Skip => NextSkip(c, s, after)
    case Decommit => NextDecommit(c, s, after)
  }

  /** The heap before the first allocation: every region empty, the free set just built. */
  ghost predicate Init(c: Config, s: Heap) {
    ConfigOk(c) && |s.free.regions| == c.count &&
    (forall i :: 0 <= i < c.count ==>
       var r := s.free.regions[i]; r.IsEmpty() && !r.toSweep && VacantOk(r) && |r.lists.buckets| == c.log2 + 1) &&
    s.free == Rebuild(c, s.free) && s.uncommit.Away? && forall t :: 0 <= t < |s.tlabs| ==> s.tlabs[t].NoTlab?
  }

  ghost predicate IsRun(c: Config, states: seq<Heap>, steps: seq<Step>) {
    |states| == |steps| + 1 && Init(c, states[0]) &&
    forall k :: 0 <= k < |steps| ==> Next(c, states[k], steps[k], states[k + 1])
  }

  /** Nothing is in region i: no start bit, no humongous run, no buffer, and the sweeper is not coming. */
  predicate Vacant(s: Heap, i: nat) {
    i < |s.free.regions| && s.free.regions[i].starts == {} && !s.free.regions[i].toSweep &&
    !IsHumongous(s.free.regions[i]) && forall t :: 0 <= t < |s.tlabs| && s.tlabs[t].Tlab? ==> s.tlabs[t].region != i
  }

  predicate VacantAtLock(s: Heap) {
    s.uncommit.Looked? && Vacant(s, s.uncommit.region)
  }

  /** A run in which every decommit finds its region still vacant when it has the lock. */
  ghost predicate CarefulRun(c: Config, states: seq<Heap>, steps: seq<Step>) {
    IsRun(c, states, steps) && forall k :: 0 <= k < |steps| && steps[k].Decommit? ==> VacantAtLock(states[k])
  }

  // ---------------------------------------------------------------------------------------------
  // Invariant
  // ---------------------------------------------------------------------------------------------

  /**
   * A buffer lies in a region that is not waiting to be swept: a Regular one if buffers fit, else a humongous run of
   * its own.
   */
  ghost predicate TlabOk(c: Config, f: FreeSet, x: Tlab) {
    x.Tlab? ==>
      x.region < |f.regions| && !f.regions[x.region].toSweep &&
      0 < x.start < x.top <= x.end == x.start + c.buffer && (x.end - x.top) % GRANULE == 0 &&
      if Fits(c) then f.regions[x.region].kind.Regular?
      else f.regions[x.region].kind.HumongousStart? && x.start == Bottom(c, x.region) &&
           Reaches(c, f.regions, x.region, x.end)
  }

  ghost predicate TlabsOk(c: Config, f: FreeSet, tlabs: seq<Tlab>) {
    forall t :: 0 <= t < |tlabs| ==> TlabOk(c, f, tlabs[t])
  }

  /** Humongous runs hold an object. */
  ghost predicate Occupied(f: FreeSet) {
    forall i :: 0 <= i < |f.regions| && f.regions[i].kind.HumongousStart? ==> f.regions[i].objects != {}
  }

  ghost predicate HeapInv(c: Config, s: Heap) {
    Inv(c, s.free, AllTails(c, s.tlabs)) && TlabsOk(c, s.free, s.tlabs) && Occupied(s.free)
  }
}

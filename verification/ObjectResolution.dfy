/** Conservative pointer resolution: which addresses resolve to the header of the object they lie in. */
module ObjectResolution {
  import opened Powers
  import opened Tiling
  import opened RegionModel
  import opened FreeSetModel
  import opened Humongous
  import opened HeapRun
  import opened HeapInvariant
  import opened HeapSafety

  /** `region_index`. */
  function RegionIndex(c: Config, a: nat): nat
    requires c.size > 0 && a >= c.base
  {
    (a - c.base) / c.size
  }

  function WalkBack(regions: seq<Region>, j: nat): (s: nat)
    requires j < |regions|
    ensures s <= j
  {
    if j == 0 || regions[j].kind.HumongousStart? then j else WalkBack(regions, j - 1)
  }

  /** `Heap::object_start`; 0 is null. */
  function ObjectStart(c: Config, f: FreeSet, a: nat): nat
    requires c.size > 0
  {
    if a < c.base || RegionIndex(c, a) >= |f.regions| then 0
    else
      var i := RegionIndex(c, a);
      if f.regions[i].kind.HumongousStart? then Bottom(c, i)
      else if f.regions[i].kind.HumongousCont? then Bottom(c, WalkBack(f.regions, i))
      else Floor(f.regions[i].starts, a)
  }

  // ---------------------------------------------------------------------------------------------
  // Region index
  // ---------------------------------------------------------------------------------------------

  /** The index computed by division is that of the region the address lies in. */
  lemma IndexBracket(c: Config, a: nat)
    requires c.size > 0 && a >= c.base
    ensures Bottom(c, RegionIndex(c, a)) <= a < Top(c, RegionIndex(c, a))
  {
    var x := a - c.base;
    assert x == x / c.size * c.size + x % c.size;
    BottomPlus(c, 0, x / c.size);
  }

  lemma IndexUnique(c: Config, i: nat, j: nat, a: nat)
    requires Bottom(c, i) <= a < Top(c, i) && Bottom(c, j) <= a < Top(c, j)
    ensures i == j
  {
    hide Bottom;
    if i < j {
      BottomMonotone(c, i, j);
    } else if j < i {
      BottomMonotone(c, j, i);
    }
  }

  lemma RegionIndexIs(c: Config, i: nat, a: nat)
    requires c.size > 0 && Bottom(c, i) <= a < Top(c, i)
    ensures RegionIndex(c, a) == i
  {
    hide RegionIndex;
    IndexBracket(c, a);
    IndexUnique(c, i, RegionIndex(c, a), a);
  }

  lemma {:induction false} WalkBackTo(regions: seq<Region>, i: nat, j: nat)
    requires i <= j < |regions| && regions[i].kind.HumongousStart?
    requires forall m :: i < m <= j ==> regions[m].kind.HumongousCont?
    ensures WalkBack(regions, j) == i
    decreases j
  {
    if i < j {
      WalkBackTo(regions, i, j - 1);
    }
  }

  /** Whatever lies in a humongous run resolves to the bottom of the run. */
  lemma RunResolves(c: Config, f: FreeSet, i: nat, end: nat, a: nat)
    requires c.size > 0 && i < |f.regions| && f.regions[i].kind.HumongousStart? && Reaches(c, f.regions, i, end)
    requires Bottom(c, i) <= a < end
    ensures ObjectStart(c, f, a) == Bottom(c, i)
  {
    hide Bottom, RegionIndex, WalkBack;
    IndexBracket(c, a);
    var j := RegionIndex(c, a);
    if j < i {
      BottomMonotone(c, j, i);
    } else if i < j {
      forall m | i < m <= j ensures m < |f.regions| && f.regions[m].kind.HumongousCont? {
        BottomMonotone(c, m, j);
      }
      WalkBackTo(f.regions, i, j);
    }
  }

  // ---------------------------------------------------------------------------------------------
  // Addresses inside objects
  // ---------------------------------------------------------------------------------------------

  lemma ObjectInside(c: Config, i: nat, r: Region, tails: set<Tile>, b: Block)
    requires RegularOk(Bottom(c, i), Top(c, i), r, tails) && b in r.objects
    ensures Bottom(c, i) <= b.addr && b.End() <= Top(c, i)
  {
    assert Tile(b, Object) in Layout(r, tails);
  }

  lemma ResolvesInRegion(c: Config, s: Heap, i: nat, b: Block, a: nat)
    requires HeapInv(c, s) && i < c.count == |s.free.regions| && b in s.free.regions[i].objects && b.Holds(a)
    ensures c.size > 0
    ensures ObjectStart(c, s.free, a) == if s.free.regions[i].kind.Regular? then b.addr else Bottom(c, i)
  {
    TableSize(c, s);
    var f := s.free;
    var tails := Tails(s.tlabs, i);
    RegionOf(c, s, i);
    hide HeapInv, Tails, Floor, RegularOk, Bottom;
    if f.regions[i].kind.Regular? {
      TiledRegion(c, s, i);
      ObjectInside(c, i, f.regions[i], tails, b);
      RegionIndexIs(c, i, a);
      RegularResolves(Bottom(c, i), Top(c, i), f.regions[i], tails, b, a);
    } else {
      StartReaches(c, s, i, b);
      RunResolves(c, f, i, b.End(), a);
    }
  }

  lemma StartReaches(c: Config, s: Heap, i: nat, b: Block)
    requires HeapInv(c, s) && i < c.count == |s.free.regions| && b in s.free.regions[i].objects
    requires !s.free.regions[i].kind.Regular?
    ensures s.free.regions[i].kind.HumongousStart? && b.addr >= Bottom(c, i) && Reaches(c, s.free.regions, i, b.End())
  {
    RegionOf(c, s, i);
    hide TlabsOk, Occupied;
    StartOf(c, s.free, AllTails(c, s.tlabs), i);
  }

  /**
   * In every reachable state of every configuration, an address inside an allocated object resolves to the object's
   * header exactly when the object lies in a Regular region or is the first of its humongous run.
   */
  lemma ObjectStartIff(c: Config, states: seq<Heap>, steps: seq<Step>, k: nat, i: nat, b: Block, a: nat)
    requires CarefulRun(c, states, steps) && k < |states| && i < c.count && i < |states[k].free.regions|
    requires b in states[k].free.regions[i].objects && b.Holds(a)
    ensures c.size > 0
    ensures ObjectStart(c, states[k].free, a) == b.addr <==>
            states[k].free.regions[i].kind.Regular? || b.addr == Bottom(c, i)
  {
    hide CarefulRun, HeapInv, ObjectStart;
    InvRun(c, states, steps, k);
    TableSize(c, states[k]);
    ResolvesInRegion(c, states[k], i, b, a);
  }

  /** When buffers fit, every address inside an allocated object resolves to the header of that object. */
  lemma ObjectStartFindsHeader(c: Config, states: seq<Heap>, steps: seq<Step>, k: nat, i: nat, b: Block, a: nat)
    requires CarefulRun(c, states, steps) && Fits(c) && k < |states| && i < c.count && i < |states[k].free.regions|
    requires b in states[k].free.regions[i].objects && b.Holds(a)
    ensures c.size > 0 && ObjectStart(c, states[k].free, a) == b.addr
  {
    hide CarefulRun, HeapInv, ObjectStart;
    InvRun(c, states, steps, k);
    TableSize(c, states[k]);
    ObjectStartIff(c, states, steps, k, i, b, a);
    OnlyFirst(c, states[k], i, b);
  }

  lemma OnlyFirst(c: Config, s: Heap, i: nat, b: Block)
    requires HeapInv(c, s) && Fits(c) && i < c.count == |s.free.regions| && b in s.free.regions[i].objects
    ensures s.free.regions[i].kind.Regular? || b.addr == Bottom(c, i)
  {
    RegionOf(c, s, i);
  }

  /**
   * An object bumped out of a buffer resolves to its header exactly when buffers are at most the humongous threshold.
   */
  lemma BufferObjectResolvesIff(c: Config, states: seq<Heap>, steps: seq<Step>, k: nat, t: nat, n: nat)
    requires CarefulRun(c, states, steps) && k < |steps| && steps[k] == Bump(t, n)
    ensures t < |states[k].tlabs| && states[k].tlabs[t].Tlab? && c.size > 0
    ensures var obj := states[k].tlabs[t].top;
            ObjectStart(c, states[k + 1].free, obj) == obj <==> c.buffer <= c.threshold
  {
    assert NextBump(c, states[k], t, n, states[k + 1]) by {
      assert Next(c, states[k], steps[k], states[k + 1]);
    }
    InvRun(c, states, steps, k);
    InvRun(c, states, steps, k + 1);
    var s, after := states[k], states[k + 1];
    TableSize(c, after);
    var x := s.tlabs[t];
    assert TlabOk(c, s.free, x);
    hide CarefulRun, HeapInv, ObjectStart, Bottom, Reaches;
    var b := Block(x.top, n);
    assert b in after.free.regions[x.region].objects && b.Holds(x.top);
    ObjectStartIff(c, states, steps, k + 1, x.region, b, x.top);
  }

  // ---------------------------------------------------------------------------------------------
  // A configuration whose buffers do not fit
  // ---------------------------------------------------------------------------------------------

  function RefilledHeap(c: Config): Heap
    requires c.count > 0 && c.size > 0
  {
    var s := StartHeap(c, 0, 1);
    s.(free := BufferRun(c, s.free, 0, GRANULE), tlabs := s.tlabs[0 := NewTlab(c, 0, c.base, GRANULE)])
  }

  function BumpedHeap(c: Config): Heap
    requires c.count > 0 && c.size > 0 && |RefilledHeap(c).free.regions| > 0
  {
    var s := RefilledHeap(c);
    var x := s.tlabs[0];
    s.(free := WithRegion(s.free, 0, NewObject(s.free.regions[0], Block(c.base + GRANULE, GRANULE))),
       tlabs := s.tlabs[0 := x.(top := x.top + GRANULE)])
  }

  lemma RefillIsStep(c: Config)
    requires ConfigOk(c) && !Fits(c) && c.buffer >= 2 * GRANULE && Required(c, c.buffer) <= c.count
    ensures NextRefill(c, StartHeap(c, 0, 1), 0, 0, GRANULE, RefilledHeap(c))
    ensures |RefilledHeap(c).free.regions| == c.count
  {
    var s := StartHeap(c, 0, 1);
    forall j: nat | j < c.count ensures RunFree(s.free, j) {
      StartIsFree(c, 0, 1, j);
    }
    StartIsFree(c, 0, 1, 0);
    StartIsInit(c, 0, 1);
    InvInit(c, s);
    TableSize(c, s);
    hide StartHeap, Init, HeapInv, Required, TakeRun;
    assert FreeRun(s.free, 0, Required(c, c.buffer));
    TakeRunLength(c, s.free, 0, Required(c, c.buffer), GRANULE);
    ThreadsOf(c, 0, 1);
  }

  lemma TakeRunLength(c: Config, f: FreeSet, beg: nat, num: nat, n: nat)
    requires f.left <= |f.bits| && f.right < |f.bits|
    ensures |TakeRun(c, f, beg, num, n).regions| == |f.regions|
  {
  }

  lemma ThreadsOf(c: Config, committed: nat, threads: nat)
    requires c.count > 0
    ensures |StartHeap(c, committed, threads).tlabs| == threads
    ensures forall t :: 0 <= t < threads ==> StartHeap(c, committed, threads).tlabs[t].NoTlab?
  {
  }

  /** A refill and one bump: the second object of the buffer resolves to the first. */
  lemma LargeBufferMisresolves(c: Config)
    requires ConfigOk(c) && !Fits(c) && c.buffer >= 2 * GRANULE && Required(c, c.buffer) <= c.count
    ensures |RefilledHeap(c).free.regions| == c.count
    ensures CarefulRun(c, [StartHeap(c, 0, 1), RefilledHeap(c), BumpedHeap(c)],
                       [Refill(0, 0, GRANULE), Bump(0, GRANULE)])
    ensures Block(c.base + GRANULE, GRANULE) in BumpedHeap(c).free.regions[0].objects
    ensures ObjectStart(c, BumpedHeap(c).free, c.base + GRANULE) != c.base + GRANULE
  {
    RefillIsStep(c);
    StartIsInit(c, 0, 1);
    ThreadsOf(c, 0, 1);
    var states := [StartHeap(c, 0, 1), RefilledHeap(c), BumpedHeap(c)];
    var steps := [Refill(0, 0, GRANULE), Bump(0, GRANULE)];
    assert RefilledHeap(c).tlabs[0] == NewTlab(c, 0, c.base, GRANULE);
    assert NextBump(c, RefilledHeap(c), 0, GRANULE, BumpedHeap(c));
    hide NextRefill, NextBump, Init, ObjectStart, StartHeap;
    assert Next(c, states[0], steps[0], states[1]) && Next(c, states[1], steps[1], states[2]);
    BufferObjectResolvesIff(c, states, steps, 1, 0, GRANULE);
  }

  /** 96 MB in regions of 32 KB, a humongous threshold of five percent, and the smallest buffer size. */
  function SmallThreshold(): Config {
    Config(0x1000_0000, 15, 0x8000, 3072, 1600, 2048)
  }

  lemma RegionsOf32K()
    ensures Pow2(15) == 0x8000
  {
    assert Pow2(8) == 256 && Pow2(7) == 128;
    Pow2Sum(8, 7);
  }

  lemma SmallThresholdMisresolves()
    ensures ConfigOk(SmallThreshold()) && !Fits(SmallThreshold())
    ensures |RefilledHeap(SmallThreshold()).free.regions| > 0
    ensures ObjectStart(SmallThreshold(), BumpedHeap(SmallThreshold()).free, 0x1000_0010) != 0x1000_0010
  {
    var c := SmallThreshold();
    RegionsOf32K();
    assert Required(c, c.buffer) == 1;
    hide ObjectStart, BumpedHeap, RefilledHeap, Pow2;
    LargeBufferMisresolves(c);
  }

  /** A fresh buffer of more than two regions: its unused end has no bucket, and the buffer cannot be retired. */
  lemma LargeBufferStuck(c: Config)
    requires ConfigOk(c) && !Fits(c) && c.buffer >= 2 * c.size + GRANULE && Required(c, c.buffer) <= c.count
    ensures NextRefill(c, StartHeap(c, 0, 1), 0, 0, GRANULE, RefilledHeap(c)) && HeapInv(c, RefilledHeap(c))
    ensures !CanRetire(RefilledHeap(c), 0)
  {
    RefillIsStep(c);
    StartIsInit(c, 0, 1);
    ThreadsOf(c, 0, 1);
    InvInit(c, StartHeap(c, 0, 1));
    InvRefill(c, StartHeap(c, 0, 1), 0, 0, GRANULE, RefilledHeap(c));
    assert RefilledHeap(c).tlabs[0] == NewTlab(c, 0, c.base, GRANULE);
    hide HeapInv, NextRefill, CanRetire, StartHeap, Init, RefilledHeap;
    CanRetireIff(c, RefilledHeap(c), 0);
  }

  /** Regions of 4 KB, the default threshold of a whole region, and a smallest buffer size of 16 KB. */
  lemma SmallRegionsStuck(c: Config)
    requires c == Config(0x1000_0000, 12, 0x1000, 1024, 0x1000, 0x4000)
    ensures ConfigOk(c) && |RefilledHeap(c).tlabs| == 1 && RefilledHeap(c).tlabs[0].Tlab?
    ensures !CanRetire(RefilledHeap(c), 0)
  {
    assert Pow2(12) == 0x1000;
    assert Required(c, c.buffer) == 4;
    ThreadsOf(c, 0, 1);
    hide CanRetire, Pow2, HeapInv, NextRefill;
    LargeBufferStuck(c);
  }

  // ---------------------------------------------------------------------------------------------
  // Arbitrary addresses
  // ---------------------------------------------------------------------------------------------

  lemma {:induction false} FloorIsMember(starts: set<nat>, a: nat)
    ensures Floor(starts, a) == 0 || Floor(starts, a) in starts
  {
    if a !in starts && a > 0 {
      FloorIsMember(starts, a - 1);
    }
  }

  ghost predicate IsHeader(f: FreeSet, a: nat) {
    exists i: nat, b :: i < |f.regions| && b in f.regions[i].objects && b.addr == a
  }

  lemma RunHasObject(c: Config, s: Heap, i: nat)
    requires HeapInv(c, s) && Fits(c) && i < c.count == |s.free.regions| && s.free.regions[i].kind.HumongousStart?
    ensures IsHeader(s.free, Bottom(c, i))
  {
    RegionOf(c, s, i);
    var n := s.free.regions[i].headers[Bottom(c, i)].size;
    assert Block(Bottom(c, i), n) in s.free.regions[i].objects;
  }

  lemma StartsAreHeaders(c: Config, s: Heap, i: nat, a: nat)
    requires HeapInv(c, s) && Fits(c) && i < c.count == |s.free.regions| && a in s.free.regions[i].starts
    ensures IsHeader(s.free, a)
  {
    RegionOf(c, s, i);
    var b :| b in s.free.regions[i].objects && b.addr == a;
  }

  lemma OwnerFound(c: Config, regions: seq<Region>, j: nat)
    requires c.size > 0 && Fits(c) && RunsOk(c, regions) && j < |regions| && regions[j].kind.HumongousCont?
    ensures Owns(c, regions, WalkBack(regions, j), j)
  {
    var s: nat :| Owns(c, regions, s, j);
    forall m | s < m <= j ensures regions[m].kind.HumongousCont? {
      OnlyContinuations(c, regions, s, j, m);
    }
    WalkBackTo(regions, s, j);
  }

  lemma ResolvesToObject(c: Config, s: Heap, a: nat)
    requires HeapInv(c, s) && Fits(c) && c.size > 0 && |s.free.regions| == c.count && RunsOk(c, s.free.regions)
    ensures ObjectStart(c, s.free, a) == 0 || IsHeader(s.free, ObjectStart(c, s.free, a))
  {
    hide HeapInv, IsHeader, Floor, RunsOk;
    if a >= c.base && RegionIndex(c, a) < |s.free.regions| {
      var i := RegionIndex(c, a);
      if s.free.regions[i].kind.HumongousStart? {
        RunHasObject(c, s, i);
      } else if s.free.regions[i].kind.HumongousCont? {
        OwnerFound(c, s.free.regions, i);
        RunHasObject(c, s, WalkBack(s.free.regions, i));
      } else {
        FloorIsMember(s.free.regions[i].starts, a);
        if Floor(s.free.regions[i].starts, a) != 0 {
          StartsAreHeaders(c, s, i, Floor(s.free.regions[i].starts, a));
        }
      }
    }
  }

  /** When buffers fit, any address whatever resolves to null or to the header of an allocated object. */
  lemma ObjectStartIsObject(c: Config, states: seq<Heap>, steps: seq<Step>, k: nat, a: nat)
    requires CarefulRun(c, states, steps) && Fits(c) && k < |states|
    ensures c.size > 0
    ensures ObjectStart(c, states[k].free, a) == 0 || IsHeader(states[k].free, ObjectStart(c, states[k].free, a))
  {
    InvRun(c, states, steps, k);
    hide CarefulRun, RegionOk, BitOk, RunsOk, ReachOk, ObjectStart, IsHeader;
    ResolvesToObject(c, states[k], a);
  }

  /** When buffers fit, each continuation walks back to the start of the one run it belongs to. */
  lemma ContinuationsWalkBack(c: Config, states: seq<Heap>, steps: seq<Step>, k: nat, j: nat)
    requires CarefulRun(c, states, steps) && Fits(c) && k < |states| && j < |states[k].free.regions|
    requires states[k].free.regions[j].kind.HumongousCont?
    ensures c.size > 0 && Owns(c, states[k].free.regions, WalkBack(states[k].free.regions, j), j)
  {
    InvRun(c, states, steps, k);
    hide CarefulRun;
    OwnerFound(c, states[k].free.regions, j);
  }
}

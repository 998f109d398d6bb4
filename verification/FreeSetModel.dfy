/** The region table together with the free set over it, and what every allocator and collector operation keeps. */
module FreeSetModel {
  import opened Powers
  import opened Tiling
  import opened FreeListSpec
  import opened RegionModel

  /**
   * `size` is the region size, 2 to the power `log2`; `threshold` separates single from humongous requests; `buffer`
   * is the size of every thread's allocation buffer.
   */
  datatype Config = Config(base: nat, log2: nat, size: nat, count: nat, threshold: nat, buffer: nat)

  /** What `setup_sizes` makes of the options: any threshold, from nothing to more than a region. */
  predicate ConfigShape(c: Config) {
    c.base > 0 && c.size == Pow2(c.log2) && c.size % GRANULE == 0 && c.count > 0 &&
    c.buffer > 0 && c.buffer % GRANULE == 0
  }

  /** Regions below 4 GB; `FreshHeapServesIff` says why. */
  predicate ConfigOk(c: Config) {
    ConfigShape(c) && c.log2 < 32
  }

  /** Buffers are cut from Regular regions. Nothing in the set-up of the heap makes sure of it. */
  predicate Fits(c: Config) { c.buffer <= c.threshold }

  function Bottom(c: Config, i: nat): (b: nat)
    ensures b >= c.base
  {
    if i == 0 then c.base else Bottom(c, i - 1) + c.size
  }

  function Top(c: Config, i: nat): nat { Bottom(c, i) + c.size }

  /** `left` and `right` are the cached bounds of the set bits. */
  datatype FreeSet = FreeSet(regions: seq<Region>, bits: seq<bool>, left: nat, right: nat)

  function Capacity(c: Config, r: Region): nat {
    if r.kind.Trash? || r.IsEmpty() then c.size else r.lists.bytes
  }

  // ---------------------------------------------------------------------------------------------
  // Invariant
  // ---------------------------------------------------------------------------------------------

  /** A humongous start begins with the header of an object. */
  predicate StartHeader(c: Config, i: nat, r: Region) {
    Bottom(c, i) in r.headers && r.headers[Bottom(c, i)].size > 0 && !r.headers[Bottom(c, i)].free
  }

  /** When buffers fit, that object is the only one. */
  ghost predicate HumongousOk(c: Config, i: nat, r: Region) {
    StartHeader(c, i, r) && r.starts == {} && r.objects == {Block(Bottom(c, i), r.headers[Bottom(c, i)].size)}
  }

  ghost predicate RegionOk(c: Config, i: nat, r: Region, tails: set<Tile>) {
    |r.lists.buckets| == c.log2 + 1 && OnlyTails(tails) &&
    (r.toSweep ==> tails == {} && (r.kind.Regular? || r.kind.HumongousStart?)) &&
    match r.kind
    case Regular => RegularOk(Bottom(c, i), Top(c, i), r, tails)
    case HumongousStart => StartHeader(c, i, r) && (Fits(c) ==> HumongousOk(c, i, r) && tails == {})
    case HumongousCont => r.objects == {} && r.starts == {} && tails == {}
    case Trash => r.objects == {} && (Fits(c) ==> r.starts == {}) && tails == {}
    case _ => VacantOk(r) && tails == {}
  }

  /** `required_regions`. */
  function Required(c: Config, n: nat): nat
    requires c.size > 0
  {
    (n + c.size - 1) / c.size
  }

  /** The number of regions the humongous object at the bottom of region s takes. */
  function Span(c: Config, regions: seq<Region>, s: nat): nat
    requires c.size > 0 && s < |regions|
  {
    if Bottom(c, s) in regions[s].headers then Required(c, regions[s].headers[Bottom(c, s)].size) else 1
  }

  ghost predicate Owns(c: Config, regions: seq<Region>, s: nat, j: nat)
    requires c.size > 0
  {
    s < j < |regions| && regions[s].kind.HumongousStart? && j < s + Span(c, regions, s)
  }

  /** Humongous runs are contiguous; when buffers fit, every continuation belongs to one. */
  ghost predicate RunsOk(c: Config, regions: seq<Region>)
    requires c.size > 0
  {
    (forall s :: 0 <= s < |regions| && regions[s].kind.HumongousStart? ==> s + Span(c, regions, s) <= |regions|) &&
    (forall s: nat, j: nat :: Owns(c, regions, s, j) ==> regions[j].kind.HumongousCont?) &&
    (Fits(c) ==>
       forall j :: 0 <= j < |regions| && regions[j].kind.HumongousCont? ==> exists s: nat :: Owns(c, regions, s, j))
  }

  /** After region i, everything up to `end` is continuations. */
  ghost predicate Reaches(c: Config, regions: seq<Region>, i: nat, end: nat) {
    forall j: nat :: i < j && Bottom(c, j) < end ==> j < |regions| && regions[j].kind.HumongousCont?
  }

  /** The objects of a humongous start lie behind its bottom and reach into continuations only. */
  ghost predicate ReachOk(c: Config, regions: seq<Region>) {
    forall i: nat, b :: i < |regions| && regions[i].kind.HumongousStart? && b in regions[i].objects ==>
      b.addr >= Bottom(c, i) && Reaches(c, regions, i, b.End())
  }

  /** What the free set promises about a region whose bit is set. */
  predicate BitOk(c: Config, f: FreeSet, i: nat)
    requires i < |f.regions|
  {
    var r := f.regions[i];
    !r.toSweep && Capacity(c, r) != 0 && f.left <= i <= f.right && (r.IsEmpty() || r.kind.Trash? || r.kind.Regular?)
  }

  ghost predicate BitsOk(c: Config, f: FreeSet) {
    |f.regions| == |f.bits| == c.count && f.right < c.count && f.left <= c.count &&
    forall i :: 0 <= i < c.count && f.bits[i] ==> BitOk(c, f, i)
  }

  ghost predicate RegionsOk(c: Config, f: FreeSet, tails: seq<set<Tile>>) {
    |f.regions| == |tails| == c.count &&
    forall i :: 0 <= i < c.count ==> RegionOk(c, i, f.regions[i], tails[i])
  }

  ghost predicate Inv(c: Config, f: FreeSet, tails: seq<set<Tile>>) {
    ConfigOk(c) && BitsOk(c, f) && RegionsOk(c, f, tails) && RunsOk(c, f.regions) && ReachOk(c, f.regions)
  }

  // ---------------------------------------------------------------------------------------------
  // Bounds
  // ---------------------------------------------------------------------------------------------

  function Advance(bits: seq<bool>, i: nat): (j: nat)
    requires i <= |bits|
    ensures i <= j <= |bits| && (forall k :: i <= k < j ==> !bits[k]) && (j < |bits| ==> bits[j])
    decreases |bits| - i
  {
    if i == |bits| || bits[i] then i else Advance(bits, i + 1)
  }

  function Retreat(bits: seq<bool>, i: nat): (j: nat)
    requires i < |bits|
    ensures j <= i && (forall k :: j < k <= i ==> !bits[k]) && (j == 0 || bits[j])
  {
    if i == 0 || bits[i] then i else Retreat(bits, i - 1)
  }

  function Adjust(f: FreeSet): FreeSet
    requires f.left <= |f.bits| && f.right < |f.bits|
  {
    f.(left := Advance(f.bits, f.left), right := Retreat(f.bits, f.right))
  }

  lemma AdjustKeeps(c: Config, f: FreeSet)
    requires BitsOk(c, f)
    ensures BitsOk(c, Adjust(f))
  {
    var g := Adjust(f);
    forall i | 0 <= i < c.count && g.bits[i] ensures BitOk(c, g, i) {
      assert BitOk(c, f, i);
    }
  }

  /** Clearing a bit, with the bounds tightened when it was at one of them. */
  function Retire(f: FreeSet, i: nat): FreeSet
    requires i < |f.bits| && f.left <= |f.bits| && f.right < |f.bits|
  {
    var g := f.(bits := f.bits[i := false]);
    if i == f.left || i == f.right then Adjust(g) else g
  }

  lemma RetireKeeps(c: Config, f: FreeSet, i: nat)
    requires |f.regions| == |f.bits| == c.count && f.right < c.count && f.left <= c.count && i < c.count
    requires forall k :: 0 <= k < c.count && k != i && f.bits[k] ==> BitOk(c, f, k)
    ensures BitsOk(c, Retire(f, i))
    ensures Retire(f, i).bits == f.bits[i := false] && Retire(f, i).regions == f.regions
  {
    var g := f.(bits := f.bits[i := false]);
    forall k | 0 <= k < c.count && g.bits[k] ensures BitOk(c, g, k) {
      assert BitOk(c, f, k);
    }
    AdjustKeeps(c, g);
  }

  // ---------------------------------------------------------------------------------------------
  // Single-region allocation
  // ---------------------------------------------------------------------------------------------

  /** `try_recycle_trashed`. */
  function Recycled(r: Region): Region {
    if r.kind.Trash? then r.(kind := EmptyCommitted, lists := Empty(|r.lists.buckets|), starts := {}) else r
  }

  datatype Outcome = Placed(after: FreeSet, addr: nat) | Failed(after: FreeSet)

  /** Everything `try_allocate_in` asserts or relies on. */
  ghost predicate Usable(c: Config, r: Region, i: nat, tails: set<Tile>) {
    !r.toSweep && Capacity(c, r) != 0 && AllocatableOk(Bottom(c, i), Top(c, i), Recycled(r), tails)
  }

  lemma ReadyToAllocate(lo: nat, hi: nat, r: Region, tails: set<Tile>)
    requires AllocatableOk(lo, hi, r, tails)
    ensures HasBucket(r.lists, hi - lo) && Ok(MakeRegular(lo, hi - lo, r).lists)
  {
    MakeRegularKeeps(lo, hi, r, tails);
  }

  function TryAllocateIn(c: Config, f: FreeSet, i: nat, n: nat, ghost tails: set<Tile>): Outcome
    requires i < |f.regions| == |f.bits| && f.left <= |f.bits| && f.right < |f.bits|
    requires Usable(c, f.regions[i], i, tails) && n > 0 && n % GRANULE == 0
  {
    var r := Recycled(f.regions[i]);
    ReadyToAllocate(Bottom(c, i), Top(c, i), r, tails);
    var got := Allocate(Bottom(c, i), c.size, r, n);
    var g := f.(regions := f.regions[i := got.region]);
    var h := if got.Full? || Capacity(c, got.region) == 0 then Retire(g, i) else g;
    if got.Got? then Placed(h, got.addr) else Failed(h)
  }

  lemma BucketsCover(c: Config, r: Region)
    requires ConfigOk(c) && |r.lists.buckets| == c.log2 + 1
    ensures c.size < Pow2(|r.lists.buckets|)
  {
  }

  /** A set bit means the region can be used. */
  lemma BitIsUsable(c: Config, f: FreeSet, tails: seq<set<Tile>>, i: nat)
    requires Inv(c, f, tails) && i < c.count && f.bits[i]
    ensures Usable(c, f.regions[i], i, tails[i])
  {
    hide Ok, Tiles, Pow2;
    assert BitOk(c, f, i) && RegionOk(c, i, f.regions[i], tails[i]);
    BucketsCover(c, f.regions[i]);
    EmptyOk(c.log2 + 1);
  }

  predicate IsHumongous(r: Region) { r.kind.HumongousStart? || r.kind.HumongousCont? }

  /** Changing a region that is in no humongous run, to one that is in none either. */
  lemma RunsFrame(c: Config, regions: seq<Region>, i: nat, r: Region)
    requires c.size > 0 && RunsOk(c, regions) && i < |regions| && !IsHumongous(regions[i]) && !IsHumongous(r)
    ensures RunsOk(c, regions[i := r])
  {
    hide Bottom, Required;
    var after := regions[i := r];
    forall s: nat, j: nat | Owns(c, after, s, j) ensures after[j].kind.HumongousCont? {
      assert Owns(c, regions, s, j);
    }
    forall j | Fits(c) && 0 <= j < |after| && after[j].kind.HumongousCont?
      ensures exists s: nat :: Owns(c, after, s, j)
    {
      var s: nat :| Owns(c, regions, s, j);
      assert Owns(c, after, s, j);
    }
  }

  lemma ReachFrame(c: Config, regions: seq<Region>, i: nat, r: Region)
    requires ReachOk(c, regions) && i < |regions| && !IsHumongous(regions[i]) && !IsHumongous(r)
    ensures ReachOk(c, regions[i := r])
  {
    hide Bottom;
    var after := regions[i := r];
    forall s: nat, b | s < |after| && after[s].kind.HumongousStart? && b in after[s].objects
      ensures b.addr >= Bottom(c, s) && Reaches(c, after, s, b.End())
    {
      assert after[s] == regions[s];
    }
  }

  /** The regions of the table that one operation leaves alone stay as they were. */
  lemma OneRegion(c: Config, f: FreeSet, tails: seq<set<Tile>>, g: FreeSet, i: nat, r: Region, ts: set<Tile>)
    requires RegionsOk(c, f, tails) && i < c.count && g.regions == f.regions[i := r] && RegionOk(c, i, r, ts)
    ensures RegionsOk(c, g, tails[i := ts])
  {
    hide RegionOk;
  }

  /** The free set after a try: the region is replaced, and its bit cleared when it has nothing left. */
  lemma BitsAfterTry(c: Config, f: FreeSet, i: nat, r: Region, retire: bool)
    requires BitsOk(c, f) && i < c.count && f.bits[i] && r.kind.Regular? && !r.toSweep
    requires (!retire ==> Capacity(c, r) != 0)
    ensures var g := f.(regions := f.regions[i := r]);
            var h := if retire then Retire(g, i) else g;
            BitsOk(c, h) && h.regions == g.regions && h.bits == (if retire then f.bits[i := false] else f.bits)
  {
    hide Capacity;
    var g := f.(regions := f.regions[i := r]);
    forall k | 0 <= k < c.count && k != i && f.bits[k] ensures BitOk(c, g, k) {
      assert BitOk(c, f, k);
    }
    assert BitOk(c, f, i);
    if retire {
      RetireKeeps(c, g, i);
    }
  }

  lemma RegularRegion(c: Config, i: nat, r: Region, tails: set<Tile>)
    requires r.kind.Regular? && !r.toSweep && |r.lists.buckets| == c.log2 + 1 && OnlyTails(tails)
    requires RegularOk(Bottom(c, i), Top(c, i), r, tails)
    ensures RegionOk(c, i, r, tails)
  {
  }

  lemma OnlyTailsOf(lo: nat, hi: nat, r: Region, tails: set<Tile>, t: Tile)
    requires AllocatableOk(lo, hi, r, tails) && t.owner.Tail?
    ensures OnlyTails(tails) && OnlyTails(tails + {t})
  {
  }

  lemma CutIsRegion(c: Config, i: nat, r: Region, tails: set<Tile>, n: nat, owner: Owner)
    requires ConfigOk(c) && AllocatableOk(Bottom(c, i), Top(c, i), r, tails) && |r.lists.buckets| == c.log2 + 1
    requires owner.Tail? && n > 0 && n % GRANULE == 0 && !r.toSweep
    ensures HasBucket(r.lists, c.size) && Ok(MakeRegular(Bottom(c, i), c.size, r).lists)
    ensures var got := Allocate(Bottom(c, i), c.size, r, n);
            got.region.kind.Regular? && !got.region.toSweep && got.region.objects == r.objects &&
            if got.Full? then RegionOk(c, i, got.region, tails)
            else got.addr > 0 && Tile(Block(got.addr, n), owner) !in tails &&
                 RegionOk(c, i, got.region, tails + {Tile(Block(got.addr, n), owner)})
  {
    hide RegularOk, Allocate, MakeRegular, Ok, Bottom, HasBucket, AllocatableOk, RegionOk, OnlyTails;
    AllocateCuts(Bottom(c, i), Top(c, i), r, tails, n, owner);
    var got := Allocate(Bottom(c, i), c.size, r, n);
    if got.Full? {
      OnlyTailsOf(Bottom(c, i), Top(c, i), r, tails, Tile(Block(0, n), owner));
      RegularRegion(c, i, got.region, tails);
    } else {
      var cut := Tile(Block(got.addr, n), owner);
      OnlyTailsOf(Bottom(c, i), Top(c, i), r, tails, cut);
      RegularRegion(c, i, got.region, tails + {cut});
    }
  }

  /**
   * Region r can serve n bytes: whole if it is free, else from a listed block that reaches the power of two n rounds
   * up to, or from the first block of the bucket of n's own magnitude.
   */
  ghost predicate Serves(c: Config, r: Region, n: nat)
    requires n > 0
  {
    if r.IsEmpty() || r.kind.Trash? then n <= c.size
    else r.kind.Regular? && (LargeBlock(r.lists, CeilLog2(n)) || LuckyHead(r.lists, n, CeilLog2(n)))
  }

  /** A try succeeds exactly when the region can serve the request. */
  lemma TryPlacesIff(c: Config, f: FreeSet, tails: seq<set<Tile>>, i: nat, n: nat)
    requires Inv(c, f, tails) && i < c.count && f.bits[i] && n > 0 && n % GRANULE == 0
    ensures Usable(c, f.regions[i], i, tails[i])
    ensures TryAllocateIn(c, f, i, n, tails[i]).Placed? <==> Serves(c, f.regions[i], n)
  {
    hide RegularOk, Allocate, MakeRegular, Ok, Bottom, HasBucket, VacantOk, Retire, RunsOk, ReachOk, Capacity;
    hide LargeBlock, LuckyHead, CeilLog2, Pow2;
    BitIsUsable(c, f, tails, i);
    var r := Recycled(f.regions[i]);
    ReadyToAllocate(Bottom(c, i), Top(c, i), r, tails[i]);
    ServesIff(Bottom(c, i), Top(c, i), r, tails[i], n, c.log2);
  }

  /** What one `try_allocate_in` does to the heap. */
  ghost predicate Tried(c: Config, f: FreeSet, tails: seq<set<Tile>>, i: nat, n: nat, owner: Owner, out: Outcome)
    requires i < |f.regions| == |tails| && i < |f.bits| && n > 0
  {
    var g := out.after;
    |g.regions| == |f.regions| && g.regions == f.regions[i := g.regions[i]] && g.regions[i].kind.Regular? &&
    g.regions[i].objects == f.regions[i].objects &&
    g.bits == f.bits[i := out.Placed? && Blocks(g.regions[i].lists) != {}] &&
    (out.Placed? <==> Serves(c, f.regions[i], n)) &&
    if out.Failed? then !g.bits[i] && Inv(c, g, tails)
    else out.addr > 0 && Tile(Block(out.addr, n), owner) !in tails[i] &&
         Inv(c, g, tails[i := tails[i] + {Tile(Block(out.addr, n), owner)}])
  }

  lemma RoomMeansBlocks(c: Config, i: nat, r: Region, tails: set<Tile>)
    requires RegionOk(c, i, r, tails) && r.kind.Regular?
    ensures Capacity(c, r) != 0 <==> Blocks(r.lists) != {}
  {
    hide Ok, Blocks, Tiles;
    NoBytesIff(r.lists);
  }

  lemma TryKeeps(c: Config, f: FreeSet, tails: seq<set<Tile>>, i: nat, n: nat, owner: Owner)
    requires Inv(c, f, tails) && i < c.count && f.bits[i] && owner.Tail? && n > 0 && n % GRANULE == 0
    ensures Usable(c, f.regions[i], i, tails[i])
    ensures Tried(c, f, tails, i, n, owner, TryAllocateIn(c, f, i, n, tails[i]))
  {
    hide RegularOk, Allocate, MakeRegular, Ok, Bottom, HasBucket, VacantOk, Retire, RunsOk, ReachOk, Capacity;
    hide Blocks, Serves;
    TryPlacesIff(c, f, tails, i, n);
    assert BitOk(c, f, i) && RegionOk(c, i, f.regions[i], tails[i]);
    var r := Recycled(f.regions[i]);
    CutIsRegion(c, i, r, tails[i], n, owner);
    var got := Allocate(Bottom(c, i), c.size, r, n);
    var g := f.(regions := f.regions[i := got.region]);
    BitsAfterTry(c, f, i, got.region, got.Full? || Capacity(c, got.region) == 0);
    RunsFrame(c, f.regions, i, got.region);
    ReachFrame(c, f.regions, i, got.region);
    var ts := if got.Full? then tails[i] else tails[i] + {Tile(Block(got.addr, n), owner)};
    hide RegionOk, BitOk;
    RoomMeansBlocks(c, i, got.region, ts);
    OneRegion(c, f, tails, g, i, got.region, ts);
    if got.Full? {
      assert tails[i := ts] == tails;
    }
  }
}

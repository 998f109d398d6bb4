/** The free set's own loops: bounds, rebuilding, first fit and contiguous allocation. */
module FreeSet {
  import opened Tiling
  import opened FreeListSpec
  import opened RegionModel
  import opened FreeSetModel
  import opened Humongous

  function CountOnes(bits: seq<bool>): nat {
    if bits == [] then 0 else (if bits[0] then 1 else 0) + CountOnes(bits[1..])
  }

  lemma {:induction false} RunNeedsBits(bits: seq<bool>, beg: nat, num: nat)
    requires beg + num <= |bits| && forall j :: beg <= j < beg + num ==> bits[j]
    ensures CountOnes(bits) >= num
  {
    if beg > 0 {
      RunNeedsBits(bits[1..], beg - 1, num);
    } else if num > 0 {
      RunNeedsBits(bits[1..], 0, num - 1);
    }
  }

  /** No run of `num` free regions starts below `limit`. */
  ghost predicate NoRunBelow(f: FreeSetModel.FreeSet, limit: nat, num: nat) {
    forall b: nat :: b < limit ==> !FreeRun(f, b, num)
  }

  /** A region that cannot be taken spoils every run across it. */
  lemma RunSpoiled(f: FreeSetModel.FreeSet, beg: nat, end: nat, num: nat)
    requires NoRunBelow(f, beg, num) && beg <= end < beg + num && !RunFree(f, end)
    ensures NoRunBelow(f, end + 1, num)
  {
  }

  lemma NoRunLeft(c: Config, f: FreeSetModel.FreeSet, num: nat)
    requires BitsOk(c, f) && num > 0
    ensures NoRunBelow(f, f.left, num)
  {
    forall b: nat | b < f.left ensures !FreeRun(f, b, num) {
      assert !RunFree(f, b);
    }
  }

  /**
   * The regions below idx have been looked at: those in the set could not serve the request, and none of them is in it
   * any more. Nothing else has changed but their free lists.
   */
  ghost predicate Passed(c: Config, f: FreeSetModel.FreeSet, g: FreeSetModel.FreeSet, idx: nat, n: nat)
    requires n > 0
  {
    |f.bits| == |f.regions| == |g.bits| == |g.regions| == c.count && idx <= c.count &&
    (forall j :: 0 <= j < idx ==> !g.bits[j]) &&
    (forall j :: 0 <= j < idx && f.bits[j] ==> !Serves(c, f.regions[j], n)) &&
    (forall j :: idx <= j < c.count ==> g.bits[j] == f.bits[j] && g.regions[j] == f.regions[j]) &&
    forall j :: 0 <= j < c.count ==> g.regions[j].objects == f.regions[j].objects
  }

  /**
   * The lowest region in the set that can serve the request was used; it stays in the set exactly when it still has a
   * free block, and everything above it is as before.
   */
  ghost predicate PlacedIn(c: Config, f: FreeSetModel.FreeSet, g: FreeSetModel.FreeSet, i: nat, n: nat)
    requires n > 0
  {
    |f.bits| == |f.regions| == |g.bits| == |g.regions| == c.count && i < c.count &&
    (forall j :: 0 <= j < i ==> !g.bits[j]) &&
    (forall j :: 0 <= j < i && f.bits[j] ==> !Serves(c, f.regions[j], n)) &&
    (g.bits[i] <==> Blocks(g.regions[i].lists) != {}) &&
    (forall j :: i < j < c.count ==> g.bits[j] == f.bits[j] && g.regions[j] == f.regions[j]) &&
    forall j :: 0 <= j < c.count ==> g.regions[j].objects == f.regions[j].objects
  }

  /** The run is one humongous object and out of the set; every other region and its bit are as before. */
  ghost predicate RunTaken(
    c: Config, f: FreeSetModel.FreeSet, g: FreeSetModel.FreeSet, beg: nat, num: nat, n: nat)
  {
    |g.regions| == |f.regions| && |g.bits| == |f.bits| && beg + num <= |f.regions| && 0 < num &&
    (forall j :: 0 <= j < |g.bits| ==> (g.bits[j] <==> f.bits[j] && !(beg <= j < beg + num))) &&
    (forall j :: 0 <= j < |g.regions| && !(beg <= j < beg + num) ==> g.regions[j] == f.regions[j]) &&
    (forall j :: beg < j < beg + num ==> g.regions[j].kind.HumongousCont?) &&
    g.regions[beg].kind.HumongousStart? && g.regions[beg].objects == {Block(Bottom(c, beg), n)}
  }

  lemma RunIsTaken(c: Config, f: FreeSetModel.FreeSet, beg: nat, num: nat, n: nat)
    requires c.size > 0 && FreeRun(f, beg, num) && num > 0 && f.left <= |f.bits| && f.right < |f.bits|
    ensures RunTaken(c, f, TakeRun(c, f, beg, num, n), beg, num, n)
  {
    RunRegionsAre(c, f, beg, num, n);
    hide Bottom, RunRegions, Span, Required;
  }

  class RegionFreeSet {
    const c: Config
    var regions: seq<Region>
    var bits: seq<bool>
    var left: nat
    var right: nat

    constructor (c: Config, f: FreeSetModel.FreeSet)
      ensures this.c == c && Abs() == f
    {
      this.c := c;
      regions, bits, left, right := f.regions, f.bits, f.left, f.right;
    }

    function Abs(): FreeSetModel.FreeSet
      reads this
    {
      FreeSetModel.FreeSet(regions, bits, left, right)
    }

    method AdjustBounds()
      requires left <= |bits| && right < |bits|
      modifies this`left, this`right
      ensures Abs() == Adjust(old(Abs()))
    {
      while left < |bits| && !bits[left]
        invariant left <= |bits| && Advance(bits, left) == Advance(bits, old(left)) && right == old(right)
      {
        left := left + 1;
      }
      while right > 0 && !bits[right]
        invariant right < |bits| && Retreat(bits, right) == Retreat(bits, old(right))
        invariant left == Advance(bits, old(left))
        decreases right
      {
        right := right - 1;
      }
    }

    /** Clears the set, then sets the bit of every region with something to allocate. */
    method Rebuild()
      requires |regions| == |bits| == c.count > 0 && c.size > 0 && ListsOk(regions)
      modifies this`bits, this`left, this`right
      ensures Abs() == Humongous.Rebuild(c, old(Abs())) && |bits| == c.count
      ensures forall j :: 0 <= j < c.count ==>
                (bits[j] <==> regions[j].IsEmpty() || regions[j].kind.Trash? ||
                              (regions[j].kind.Regular? && Blocks(regions[j].lists) != {}))
    {
      hide ListsOk, Blocks, Ok;
      bits := seq(c.count, _ => false);
      left, right := c.count, 0;
      for i := 0 to c.count
        invariant |bits| == c.count
        invariant forall j :: 0 <= j < i ==> bits[j] == MayAllocate(c, regions[j])
        invariant forall j :: i <= j < c.count ==> !bits[j]
      {
        if (regions[i].kind.Regular? || regions[i].IsEmpty() || regions[i].kind.Trash?) &&
           Capacity(c, regions[i]) != 0 {
          bits := bits[i := true];
        }
      }
      left, right := 0, c.count - 1;
      assert bits == FreshBits(c, regions);
      AdjustBounds();
      forall j | 0 <= j < c.count
        ensures bits[j] <==> regions[j].IsEmpty() || regions[j].kind.Trash? ||
                             (regions[j].kind.Regular? && Blocks(regions[j].lists) != {})
      {
        RebuildIsExact(c, old(Abs()), j);
      }
    }

    /**
     * First fit: the lowest region in the set that can serve the request is used, and those before it are retired;
     * null means that none can.
     */
    method AllocateSingle(n: nat, ghost tails: seq<set<Tile>>, ghost owner: Owner) returns (addr: nat, region: nat)
      requires Inv(c, Abs(), tails) && owner.Tail? && n > 0 && n % GRANULE == 0
      modifies this
      ensures addr == 0 ==> Inv(c, Abs(), tails) && Passed(c, old(Abs()), Abs(), c.count, n)
      ensures addr != 0 ==>
                region < c.count == |old(bits)| == |old(regions)| && old(bits)[region] &&
                Serves(c, old(regions)[region], n) && PlacedIn(c, old(Abs()), Abs(), region, n) &&
                region < |tails| && Tile(Block(addr, n), owner) !in tails[region] &&
                Inv(c, Abs(), tails[region := tails[region] + {Tile(Block(addr, n), owner)}])
    {
      hide Inv, Usable, TryAllocateIn, Serves, Blocks, Passed, PlacedIn, Tried;
      ghost var f := Abs();
      TableOf(c, f, tails);
      var idx: nat, last: nat := left, right;
      NothingLeft(c, f, tails, n);
      while idx <= last
        invariant Inv(c, Abs(), tails) && idx <= c.count && last == f.right < c.count
        invariant (idx <= last || idx >= f.left) && Passed(c, f, Abs(), idx, n)
        invariant |bits| == |regions| == |tails| == c.count && left <= |bits| && right < |bits|
        decreases last + 1 - idx
      {
        if bits[idx] {
          TryKeeps(c, Abs(), tails, idx, n, owner);
          ghost var g := Abs();
          var out := TryAllocateIn(c, Abs(), idx, n, tails[idx]);
          regions, bits, left, right := out.after.regions, out.after.bits, out.after.left, out.after.right;
          PassedTry(c, f, g, tails, idx, n, owner, out);
          if out.Placed? {
            return out.addr, idx;
          }
          TableOf(c, Abs(), tails);
        } else {
          PassedClear(c, f, Abs(), idx, n);
        }
        idx := idx + 1;
      }
      NothingRight(c, f, Abs(), tails, idx, n);
      addr, region := 0, 0;
    }

    /** `allocate_contiguous`: the lowest run of adjacent whole regions, if there is one. */
    method AllocateContiguous(n: nat, ghost tails: seq<set<Tile>>) returns (addr: nat, beg: nat)
      requires Inv(c, Abs(), tails) && n > 0
      modifies this
      ensures addr == 0 <==> forall b: nat :: !FreeRun(old(Abs()), b, Required(c, n))
      ensures addr == 0 ==> Abs() == old(Abs())
      ensures addr != 0 ==>
                addr == Bottom(c, beg) && FreeRun(old(Abs()), beg, Required(c, n)) &&
                NoRunBelow(old(Abs()), beg, Required(c, n)) &&
                Abs() == TakeRun(c, old(Abs()), beg, Required(c, n), n) && Inv(c, Abs(), tails)
      ensures addr != 0 ==> RunTaken(c, old(Abs()), Abs(), beg, Required(c, n), n)
    {
      hide RegionsOk, RunsOk, ReachOk, BitOk, Required, FreeRun;
      ghost var f := Abs();
      var num := Required(c, n);
      RequiredPositive(c, n);
      if num > CountOnes(bits) {
        TooFewBits(f, num);
        return 0, 0;
      }
      beg := left;
      var end: nat := beg;
      NoRunLeft(c, f, num);
      while true
        invariant Abs() == f && left <= beg <= end < beg + num && beg <= |regions| && NoRunBelow(f, beg, num)
        invariant forall j :: beg <= j < end ==> RunFree(f, j)
        decreases |regions| - end
      {
        if end >= |regions| {
          NoRunAtAll(f, beg, num);
          return 0, 0;
        }
        if !bits[end] || !(regions[end].IsEmpty() || regions[end].kind.Trash?) {
          RunSpoiled(f, beg, end, num);
          end := end + 1;
          beg := end;
          continue;
        }
        if end - beg + 1 == num {
          break;
        }
        end := end + 1;
      }
      RunFound(f, beg, num);
      TakeRunKeeps(c, f, tails, beg, num, n);
      RunIsTaken(c, f, beg, num, n);
      MakeRun(beg, num, n);
      if beg == left || end == right {
        AdjustBounds();
      }
      addr := Bottom(c, beg);
    }

    /** The loop that turns the run into one humongous object. */
    method MakeRun(beg: nat, num: nat, n: nat)
      requires |regions| == |bits| && beg + num <= |regions|
      modifies this`regions, this`bits
      ensures regions == RunRegions(c, old(regions), beg, num, n) && bits == ClearBits(old(bits), beg, num)
    {
      hide MakeHumongous;
      for i := beg to beg + num
        invariant |regions| == |bits| == |old(regions)| == |old(bits)|
        invariant forall j :: beg <= j < i ==>
                    regions[j] == MakeHumongous(c, j, old(regions)[j], j == beg, n) && !bits[j]
        invariant forall j :: 0 <= j < |regions| && !(beg <= j < i) ==>
                    regions[j] == old(regions)[j] && bits[j] == old(bits)[j]
      {
        regions := regions[i := MakeHumongous(c, i, regions[i], i == beg, n)];
        bits := bits[i := false];
      }
    }

    /** `trash_humongous_region_at`: from the last region of the run down to its start. */
    method TrashHumongous(s: nat)
      requires c.size > 0 && s < |regions| && s + Span(c, regions, s) <= |regions|
      modifies this`regions
      ensures regions == TrashRun(c, old(regions), s)
    {
      hide Span;
      var required := Span(c, regions, s);
      var index := s + required - 1;
      for k := 0 to required
        invariant |regions| == |old(regions)| && index == s + required - 1 - k
        invariant forall j :: 0 <= j < |regions| ==>
                    regions[j] == if index < j < s + required then Trashed(old(regions)[j]) else old(regions)[j]
      {
        regions := regions[index := Trashed(regions[index])];
        index := index - 1;
      }
    }
  }

  lemma TableOf(c: Config, f: FreeSetModel.FreeSet, tails: seq<set<Tile>>)
    requires Inv(c, f, tails)
    ensures |f.bits| == |f.regions| == |tails| == c.count && f.left <= |f.bits| && f.right < |f.bits|
  {
  }

  lemma NothingLeft(c: Config, f: FreeSetModel.FreeSet, tails: seq<set<Tile>>, n: nat)
    requires Inv(c, f, tails) && n > 0
    ensures Passed(c, f, f, f.left, n)
  {
    hide RegionOk, RunsOk, ReachOk, Serves;
  }

  lemma NothingRight(
    c: Config, f: FreeSetModel.FreeSet, g: FreeSetModel.FreeSet, tails: seq<set<Tile>>, idx: nat, n: nat)
    requires Inv(c, f, tails) && n > 0 && Passed(c, f, g, idx, n) && idx > f.right
    ensures Passed(c, f, g, c.count, n)
  {
    hide RegionOk, RunsOk, ReachOk, Serves;
  }

  lemma PassedClear(c: Config, f: FreeSetModel.FreeSet, g: FreeSetModel.FreeSet, idx: nat, n: nat)
    requires n > 0 && Passed(c, f, g, idx, n) && idx < c.count && idx < |g.bits| && !g.bits[idx]
    ensures Passed(c, f, g, idx + 1, n)
  {
    hide Serves;
  }

  lemma PassedTry(
    c: Config, f: FreeSetModel.FreeSet, g: FreeSetModel.FreeSet, tails: seq<set<Tile>>, idx: nat, n: nat,
    owner: Owner, out: Outcome)
    requires n > 0 && Passed(c, f, g, idx, n) && |tails| == c.count && idx < c.count && idx < |g.bits| && g.bits[idx]
    requires idx < |g.regions| && Tried(c, g, tails, idx, n, owner, out)
    ensures |f.bits| == |f.regions| == c.count && f.bits[idx]
    ensures out.Placed? ==>
              Serves(c, f.regions[idx], n) && PlacedIn(c, f, out.after, idx, n) && out.addr > 0 &&
              Tile(Block(out.addr, n), owner) !in tails[idx] &&
              Inv(c, out.after, tails[idx := tails[idx] + {Tile(Block(out.addr, n), owner)}])
    ensures out.Failed? ==> Passed(c, f, out.after, idx + 1, n) && Inv(c, out.after, tails)
  {
    hide Serves, Inv, Blocks;
  }

  lemma TooFewBits(f: FreeSetModel.FreeSet, num: nat)
    requires |f.bits| == |f.regions| && num > CountOnes(f.bits)
    ensures forall b: nat :: !FreeRun(f, b, num)
  {
    forall b: nat ensures !FreeRun(f, b, num) {
      if FreeRun(f, b, num) {
        forall j | b <= j < b + num ensures f.bits[j] {
          assert RunFree(f, j);
        }
        RunNeedsBits(f.bits, b, num);
      }
    }
  }

  lemma NoRunAtAll(f: FreeSetModel.FreeSet, beg: nat, num: nat)
    requires NoRunBelow(f, beg, num) && |f.regions| < beg + num
    ensures forall b: nat :: !FreeRun(f, b, num)
  {
  }

  lemma RunFound(f: FreeSetModel.FreeSet, beg: nat, num: nat)
    requires beg + num <= |f.regions| && forall j :: beg <= j < beg + num ==> RunFree(f, j)
    ensures FreeRun(f, beg, num)
  {
  }
}

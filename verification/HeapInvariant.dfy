/** Every step of the heap keeps its invariant. */
module HeapInvariant {
  import opened Tiling
  import opened FreeListSpec
  import opened RegionModel
  import opened Sweeper
  import opened FreeSetModel
  import opened Humongous
  import opened HeapRun

  // ---------------------------------------------------------------------------------------------
  // Tails
  // ---------------------------------------------------------------------------------------------

  /** Changing one buffer changes the tails by that buffer's own. */
  lemma TailSwap(tlabs: seq<Tlab>, t: nat, x: Tlab, i: nat)
    requires t < |tlabs|
    ensures Tails(tlabs[t := x], i)
         == Tails(tlabs, i) - (if HasTail(tlabs[t], i) then {TailTile(tlabs[t], t)} else {})
                            + (if HasTail(x, i) then {TailTile(x, t)} else {})
  {
    var after := tlabs[t := x];
    forall y: Tile ensures y in Tails(after, i) <==>
        y in Tails(tlabs, i) - (if HasTail(tlabs[t], i) then {TailTile(tlabs[t], t)} else {})
                             + (if HasTail(x, i) then {TailTile(x, t)} else {}) {
      if y in Tails(after, i) {
        var k: nat :| k < |after| && HasTail(after[k], i) && TailTile(after[k], k) == y;
        assert k != t ==> y in Tails(tlabs, i);
      }
      if y in Tails(tlabs, i) {
        var k: nat :| k < |tlabs| && HasTail(tlabs[k], i) && TailTile(tlabs[k], k) == y;
        assert k != t ==> after[k] == tlabs[k] && y in Tails(after, i);
      }
      if HasTail(x, i) && y == TailTile(x, t) {
        assert after[t] == x;
      }
    }
  }

  /** A buffer that stays in its region leaves the tails of the others alone. */
  lemma AllTailsSwap(c: Config, tlabs: seq<Tlab>, t: nat, x: Tlab, i: nat)
    requires t < |tlabs| && i < c.count
    requires tlabs[t].Tlab? ==> tlabs[t].region == i
    requires x.Tlab? ==> x.region == i
    ensures AllTails(c, tlabs[t := x])
         == AllTails(c, tlabs)[i := Tails(tlabs, i) - (if HasTail(tlabs[t], i) then {TailTile(tlabs[t], t)} else {})
                                                    + (if HasTail(x, i) then {TailTile(x, t)} else {})]
  {
    hide Tails;
    var gone := if HasTail(tlabs[t], i) then {TailTile(tlabs[t], t)} else {};
    var come := if HasTail(x, i) then {TailTile(x, t)} else {};
    forall j | 0 <= j < c.count
      ensures AllTails(c, tlabs[t := x])[j] == (if j == i then Tails(tlabs, i) - gone + come else Tails(tlabs, j))
    {
      TailSwap(tlabs, t, x, j);
      assert Tails(tlabs, j) - {} + {} == Tails(tlabs, j);
    }
  }

  function Rest(tail: Tile, n: nat): set<Tile>
    requires n <= tail.block.size
  {
    if n < tail.block.size then {Tile(Block(tail.block.addr + n, tail.block.size - n), tail.owner)} else {}
  }

  lemma RestIsTail(tails: set<Tile>, tail: Tile, n: nat)
    requires OnlyTails(tails) && tail in tails && n <= tail.block.size
    ensures OnlyTails(tails - {tail} + Rest(tail, n))
  {
  }

  lemma TailIn(c: Config, s: Heap, t: nat)
    requires t < |s.tlabs| && s.tlabs[t].Tlab? && s.tlabs[t].top < s.tlabs[t].end && s.tlabs[t].region < c.count
    ensures TailTile(s.tlabs[t], t) in AllTails(c, s.tlabs)[s.tlabs[t].region]
  {
    assert HasTail(s.tlabs[t], s.tlabs[t].region);
  }

  lemma BumpTails(c: Config, tlabs: seq<Tlab>, t: nat, x: Tlab, n: nat)
    requires t < |tlabs| && x == tlabs[t] && x.Tlab? && 0 < n && x.top + n <= x.end && x.region < c.count
    ensures AllTails(c, tlabs[t := x.(top := x.top + n)])
         == AllTails(c, tlabs)[x.region := AllTails(c, tlabs)[x.region] - {TailTile(x, t)} + Rest(TailTile(x, t), n)]
  {
    hide Tails;
    AllTailsSwap(c, tlabs, t, x.(top := x.top + n), x.region);
  }

  /** Retiring a buffer takes its tail away. */
  lemma RetireTails(c: Config, tlabs: seq<Tlab>, t: nat, x: Tlab)
    requires t < |tlabs| && x == tlabs[t] && x.Tlab? && x.top <= x.end && x.region < c.count
    ensures var tails := AllTails(c, tlabs);
            AllTails(c, tlabs[t := NoTlab]) ==
              if x.top < x.end then tails[x.region := tails[x.region] - {TailTile(x, t)}] else tails
  {
    hide Tails;
    AllTailsSwap(c, tlabs, t, NoTlab, x.region);
    var tails := AllTails(c, tlabs);
    var i := x.region;
    if x.top < x.end {
      assert tails[i] - {TailTile(x, t)} + {} == tails[i] - {TailTile(x, t)};
    } else {
      assert tails[i] - {} + {} == tails[i] && tails[i := tails[i]] == tails;
    }
  }

  /** A fresh buffer adds its tail. */
  lemma NewTails(c: Config, tlabs: seq<Tlab>, t: nat, i: nat, addr: nat, want: nat)
    requires t < |tlabs| && tlabs[t].NoTlab? && i < c.count && 0 < want <= c.buffer
    ensures var tails := AllTails(c, tlabs);
            AllTails(c, tlabs[t := NewTlab(c, i, addr, want)]) ==
              tails[i := tails[i] + Rest(Tile(Block(addr, c.buffer), Tail(t)), want)]
  {
    hide Tails;
    AllTailsSwap(c, tlabs, t, NewTlab(c, i, addr, want), i);
    var tails := AllTails(c, tlabs);
    assert tails[i] - {} == tails[i];
  }

  // ---------------------------------------------------------------------------------------------
  // One region changes
  // ---------------------------------------------------------------------------------------------

  lemma BitsFrame(c: Config, f: FreeSet, i: nat, r: Region)
    requires BitsOk(c, f) && i < c.count && r.kind == f.regions[i].kind && r.toSweep == f.regions[i].toSweep
    requires r.kind.HumongousStart? || r.lists.bytes >= f.regions[i].lists.bytes
    ensures BitsOk(c, WithRegion(f, i, r))
  {
    var g := WithRegion(f, i, r);
    forall k | 0 <= k < c.count && g.bits[k] ensures BitOk(c, g, k) {
      assert BitOk(c, f, k);
    }
  }

  /** Replacing a Regular region by one with the same state and no less free space. */
  lemma ReplaceKeeps(c: Config, f: FreeSet, tails: seq<set<Tile>>, i: nat, r: Region, ts: set<Tile>)
    requires Inv(c, f, tails) && i < c.count && f.regions[i].kind.Regular? && r.kind.Regular?
    requires r.toSweep == f.regions[i].toSweep == false && r.lists.bytes >= f.regions[i].lists.bytes
    requires |r.lists.buckets| == c.log2 + 1 && OnlyTails(ts) && RegularOk(Bottom(c, i), Top(c, i), r, ts)
    ensures Inv(c, WithRegion(f, i, r), tails[i := ts])
  {
    assert RegionOk(c, i, r, ts);
    hide RegularOk, RegionOk, RunsOk, ReachOk, BitsOk;
    RunsFrame(c, f.regions, i, r);
    ReachFrame(c, f.regions, i, r);
    BitsFrame(c, f, i, r);
    OneRegion(c, f, tails, WithRegion(f, i, r), i, r, ts);
  }

  lemma RunsSame(c: Config, regions: seq<Region>, i: nat, r: Region)
    requires c.size > 0 && RunsOk(c, regions) && i < |regions| && r.kind == regions[i].kind
    requires Span(c, regions[i := r], i) == Span(c, regions, i)
    ensures RunsOk(c, regions[i := r])
  {
    hide Span;
    var after := regions[i := r];
    forall s: nat | s < |after| ensures Span(c, after, s) == Span(c, regions, s) {
      if s != i {
        SpanSame(c, regions, after, s);
      }
    }
    forall s: nat, j: nat | Owns(c, after, s, j) ensures after[j].kind.HumongousCont? {
      assert Owns(c, regions, s, j);
    }
    forall j | Fits(c) && 0 <= j < |after| && after[j].kind.HumongousCont?
      ensures exists s: nat :: Owns(c, after, s, j)
    {
      var s: nat :| Owns(c, regions, s, j);
      assert Owns(c, after, s, j);
    }
  }

  lemma ReachSame(c: Config, regions: seq<Region>, i: nat, r: Region)
    requires ReachOk(c, regions) && i < |regions| && r.kind == regions[i].kind
    requires forall b :: b in r.objects ==> b.addr >= Bottom(c, i) && Reaches(c, regions, i, b.End())
    ensures ReachOk(c, regions[i := r])
  {
    hide Bottom;
    var after := regions[i := r];
    forall s: nat, b | s < |after| && after[s].kind.HumongousStart? && b in after[s].objects
      ensures b.addr >= Bottom(c, s) && Reaches(c, after, s, b.End())
    {
      assert Reaches(c, regions, s, b.End());
    }
  }

  /** Replacing the start of a run that serves as a buffer, with its first header in place. */
  lemma ReplaceStart(c: Config, f: FreeSet, tails: seq<set<Tile>>, i: nat, r: Region, ts: set<Tile>)
    requires Inv(c, f, tails) && !Fits(c) && i < c.count && f.regions[i].kind.HumongousStart? && r.kind.HumongousStart?
    requires r.toSweep == f.regions[i].toSweep == false && |r.lists.buckets| == c.log2 + 1 && OnlyTails(ts)
    requires StartHeader(c, i, f.regions[i]) && Bottom(c, i) in r.headers
    requires r.headers[Bottom(c, i)] == f.regions[i].headers[Bottom(c, i)]
    requires forall b :: b in r.objects ==> b.addr >= Bottom(c, i) && Reaches(c, f.regions, i, b.End())
    ensures Inv(c, WithRegion(f, i, r), tails[i := ts])
  {
    assert RegionOk(c, i, r, ts);
    hide Bottom, RegionOk, RunsOk, ReachOk, Reaches, BitsOk;
    RunsSame(c, f.regions, i, r);
    ReachSame(c, f.regions, i, r);
    BitsFrame(c, f, i, r);
    OneRegion(c, f, tails, WithRegion(f, i, r), i, r, ts);
  }

  lemma RegularOf(c: Config, f: FreeSet, tails: seq<set<Tile>>, i: nat)
    requires Inv(c, f, tails) && i < c.count && f.regions[i].kind.Regular?
    ensures |f.regions| == |tails| == c.count
    ensures RegularOk(Bottom(c, i), Top(c, i), f.regions[i], tails[i]) && OnlyTails(tails[i])
    ensures |f.regions[i].lists.buckets| == c.log2 + 1 && Bottom(c, i) > 0
  {
    hide RegularOk, RunsOk, ReachOk, BitOk;
    assert RegionOk(c, i, f.regions[i], tails[i]);
  }

  lemma StartOf(c: Config, f: FreeSet, tails: seq<set<Tile>>, i: nat)
    requires Inv(c, f, tails) && i < c.count && f.regions[i].kind.HumongousStart?
    ensures |f.regions| == |tails| == c.count && OnlyTails(tails[i]) && StartHeader(c, i, f.regions[i])
    ensures |f.regions[i].lists.buckets| == c.log2 + 1
    ensures forall b :: b in f.regions[i].objects ==> b.addr >= Bottom(c, i) && Reaches(c, f.regions, i, b.End())
  {
    hide RunsOk, BitOk, Bottom, Reaches;
    assert RegionOk(c, i, f.regions[i], tails[i]);
  }

  lemma ReachesLess(c: Config, regions: seq<Region>, i: nat, end: nat, less: nat)
    requires Reaches(c, regions, i, end) && less <= end
    ensures Reaches(c, regions, i, less)
  {
  }

  /** An object placed at the front of a tail in a Regular region. */
  lemma PlaceKeeps(c: Config, f: FreeSet, tails: seq<set<Tile>>, i: nat, tail: Tile, n: nat)
    requires Inv(c, f, tails) && i < c.count && f.regions[i].kind.Regular? && !f.regions[i].toSweep
    requires tail in tails[i] && 0 < n <= tail.block.size && n % GRANULE == 0
    ensures Inv(c, WithRegion(f, i, NewObject(f.regions[i], Block(tail.block.addr, n))),
                tails[i := tails[i] - {tail} + Rest(tail, n)])
  {
    hide Inv, RegularOk, OnlyTails;
    RegularOf(c, f, tails, i);
    var r := NewObject(f.regions[i], Block(tail.block.addr, n));
    RestIsTail(tails[i], tail, n);
    BumpKeeps(Bottom(c, i), Top(c, i), f.regions[i], tails[i], tail, n);
    ReplaceKeeps(c, f, tails, i, r, tails[i] - {tail} + Rest(tail, n));
  }

  /** The unused end of a buffer in a Regular region becomes free. */
  lemma GiveBackInv(c: Config, f: FreeSet, tails: seq<set<Tile>>, i: nat, tail: Tile)
    requires Inv(c, f, tails) && i < c.count && f.regions[i].kind.Regular? && !f.regions[i].toSweep
    requires tail in tails[i] && tail.block.Granular() && HasBucket(f.regions[i].lists, tail.block.size)
    ensures Inv(c, WithRegion(f, i, GiveBack(f.regions[i], tail.block)), tails[i := tails[i] - {tail}])
  {
    hide Inv, RegularOk;
    RegularOf(c, f, tails, i);
    GiveBackKeeps(Bottom(c, i), Top(c, i), f.regions[i], tails[i], tail);
    ReplaceKeeps(c, f, tails, i, GiveBack(f.regions[i], tail.block), tails[i] - {tail});
  }

  // ---------------------------------------------------------------------------------------------
  // Buffers and objects
  // ---------------------------------------------------------------------------------------------

  /** Buffers are as good as before when the region that changes is in no humongous run. */
  lemma TlabsFrame(c: Config, f: FreeSet, g: FreeSet, tlabs: seq<Tlab>, i: nat)
    requires TlabsOk(c, f, tlabs)
    requires |g.regions| == |f.regions| && i < |g.regions| && g.regions == f.regions[i := g.regions[i]]
    requires !IsHumongous(f.regions[i]) && g.regions[i].kind.Regular? && !g.regions[i].toSweep
    ensures TlabsOk(c, g, tlabs)
  {
    hide Bottom;
    forall t | 0 <= t < |tlabs| ensures TlabOk(c, g, tlabs[t]) {
      assert TlabOk(c, f, tlabs[t]);
    }
  }

  /** Buffers are as good as before when a region keeps its state. */
  lemma TlabsSame(c: Config, f: FreeSet, i: nat, r: Region, tlabs: seq<Tlab>)
    requires TlabsOk(c, f, tlabs) && i < |f.regions| && r.kind == f.regions[i].kind && r.toSweep == f.regions[i].toSweep
    ensures TlabsOk(c, WithRegion(f, i, r), tlabs)
  {
    hide Bottom;
    forall t | 0 <= t < |tlabs| ensures TlabOk(c, WithRegion(f, i, r), tlabs[t]) {
      assert TlabOk(c, f, tlabs[t]);
    }
  }

  /** A run that was free holds no buffer. */
  lemma TlabsTakeRun(c: Config, f: FreeSet, beg: nat, num: nat, n: nat, tlabs: seq<Tlab>)
    requires c.size > 0 && TlabsOk(c, f, tlabs) && FreeRun(f, beg, num) && num > 0
    requires f.left <= |f.bits| && f.right < |f.bits|
    ensures TlabsOk(c, TakeRun(c, f, beg, num, n), tlabs)
  {
    RunRegionsAre(c, f, beg, num, n);
    hide Bottom, RunRegions, FreeRun, Span, Required;
    var g := TakeRun(c, f, beg, num, n);
    assert g.regions == RunRegions(c, f.regions, beg, num, n);
    forall t | 0 <= t < |tlabs| ensures TlabOk(c, g, tlabs[t]) {
      assert TlabOk(c, f, tlabs[t]);
    }
  }

  lemma OccupiedFrame(f: FreeSet, g: FreeSet, i: nat)
    requires Occupied(f) && i < |f.regions| && |g.regions| == |f.regions| && g.regions == f.regions[i := g.regions[i]]
    requires g.regions[i].kind.HumongousStart? ==> g.regions[i].objects != {}
    ensures Occupied(g)
  {
  }

  lemma OccupiedTakeRun(c: Config, f: FreeSet, beg: nat, num: nat, n: nat)
    requires c.size > 0 && Occupied(f) && FreeRun(f, beg, num) && num > 0 && f.left <= |f.bits| && f.right < |f.bits|
    ensures Occupied(TakeRun(c, f, beg, num, n))
  {
    RunRegionsAre(c, f, beg, num, n);
    hide Bottom, RunRegions, FreeRun, Span, Required;
    assert TakeRun(c, f, beg, num, n).regions == RunRegions(c, f.regions, beg, num, n);
  }

  lemma TableSize(c: Config, s: Heap)
    requires HeapInv(c, s)
    ensures |s.free.regions| == |s.free.bits| == c.count && c.size > 0
    ensures s.free.left <= |s.free.bits| && s.free.right < |s.free.bits|
  {
  }

  // ---------------------------------------------------------------------------------------------
  // Allocation from one region
  // ---------------------------------------------------------------------------------------------

  lemma TriedNotSwept(c: Config, f: FreeSet, tails: seq<set<Tile>>, i: nat, n: nat)
    requires Inv(c, f, tails) && i < c.count && f.bits[i] && n > 0 && n % GRANULE == 0
    requires Usable(c, f.regions[i], i, tails[i])
    ensures i < |TryAllocateIn(c, f, i, n, tails[i]).after.regions|
    ensures !TryAllocateIn(c, f, i, n, tails[i]).after.regions[i].toSweep
  {
    hide RegularOk, RunsOk, ReachOk, Allocate, MakeRegular, Ok, Bottom, HasBucket, VacantOk, Capacity;
    assert RegionOk(c, i, f.regions[i], tails[i]);
    CutIsRegion(c, i, Recycled(f.regions[i]), tails[i], n, Tail(0));
  }

  lemma BitIsPlain(c: Config, f: FreeSet, i: nat)
    requires BitsOk(c, f) && i < c.count && f.bits[i]
    ensures !IsHumongous(f.regions[i])
  {
    assert BitOk(c, f, i);
  }

  lemma TryFrom(c: Config, s: Heap, i: nat, n: nat, owner: Owner)
    requires HeapInv(c, s) && CanTry(c, s, i, n) && owner.Tail?
    ensures i < c.count && !IsHumongous(s.free.regions[i])
    ensures Tried(c, s.free, AllTails(c, s.tlabs), i, n, owner, Try(c, s, i, n))
    ensures !Try(c, s, i, n).after.regions[i].toSweep
    ensures Try(c, s, i, n).Failed? && n <= c.size ==> s.free.regions[i].kind.Regular?
  {
    hide Blocks, LargeBlock, LuckyHead, CeilLog2;
    hide RegularOk, RegionOk, RunsOk, ReachOk, Usable, Tails, TryAllocateIn, TlabsOk, Occupied;
    var tails := AllTails(c, s.tlabs);
    TryKeeps(c, s.free, tails, i, n, owner);
    BitIsPlain(c, s.free, i);
    assert tails[i] == Tails(s.tlabs, i);
    TriedNotSwept(c, s.free, tails, i, n);
  }

  lemma InvShared(c: Config, s: Heap, t: nat, i: nat, n: nat, after: Heap)
    requires HeapInv(c, s) && NextShared(c, s, i, n, after)
    ensures HeapInv(c, after)
  {
    hide Inv, Usable, Try, Tails, TryAllocateIn, TlabsOk, Occupied;
    TryFrom(c, s, i, n, Tail(t));
    var out := Try(c, s, i, n);
    var tails := AllTails(c, s.tlabs);
    if out.Placed? {
      var cut := Tile(Block(out.addr, n), Tail(t));
      PlaceKeeps(c, out.after, tails[i := tails[i] + {cut}], i, cut, n);
      assert tails[i] + {cut} - {cut} + {} == tails[i];
      assert tails[i := tails[i] + {cut}][i := tails[i]] == tails;
    }
    TlabsFrame(c, s.free, after.free, s.tlabs, i);
    OccupiedFrame(s.free, after.free, i);
  }

  lemma InvRefillSingle(c: Config, s: Heap, t: nat, i: nat, want: nat, after: Heap)
    requires HeapInv(c, s) && Fits(c) && WantsBuffer(c, s, t, want) && RefillSingle(c, s, t, i, want, after)
    ensures HeapInv(c, after)
  {
    hide Inv, Usable, Try, Tails, TryAllocateIn, Occupied, Bottom;
    TryFrom(c, s, i, c.buffer, Tail(t));
    var out := Try(c, s, i, c.buffer);
    var tails := AllTails(c, s.tlabs);
    if out.Placed? {
      var cut := Tile(Block(out.addr, c.buffer), Tail(t));
      PlaceKeeps(c, out.after, tails[i := tails[i] + {cut}], i, cut, want);
      NewTails(c, s.tlabs, t, i, out.addr, want);
      assert tails[i] + {cut} - {cut} + Rest(cut, want) == tails[i] + Rest(cut, want);
      assert tails[i := tails[i] + {cut}][i := tails[i] + Rest(cut, want)] == AllTails(c, after.tlabs);
    }
    TlabsFrame(c, s.free, after.free, s.tlabs, i);
    OccupiedFrame(s.free, after.free, i);
  }

  // ---------------------------------------------------------------------------------------------
  // Buffers in humongous runs
  // ---------------------------------------------------------------------------------------------

  /** The table after a run has been taken for a buffer. */
  lemma BufferRunIs(c: Config, f: FreeSet, i: nat, want: nat)
    requires c.size > 0 && f.left <= |f.bits| && f.right < |f.bits| && 0 < want <= c.buffer
    requires FreeRun(f, i, Required(c, c.buffer))
    ensures i < |f.regions| && Required(c, want) <= Required(c, c.buffer) && Required(c, c.buffer) > 0
    ensures var g := TakeRun(c, f, i, Required(c, c.buffer), want);
            |g.regions| == |f.regions| && g.regions[i].kind.HumongousStart? &&
            g.regions[i].objects == {Block(Bottom(c, i), want)} && Reaches(c, g.regions, i, Bottom(c, i) + c.buffer)
  {
    RequiredMonotone(c, want, c.buffer);
    RequiredPositive(c, want);
    var num := Required(c, c.buffer);
    RunRegionsAre(c, f, i, num, want);
    RunHolds(c, i, num, c.buffer);
    hide Bottom, RunRegions, FreeRun, Span, Required;
    var g := TakeRun(c, f, i, num, want);
    assert g.regions == RunRegions(c, f.regions, i, num, want);
    RunReaches(c, g.regions, i, num, Bottom(c, i) + c.buffer);
  }

  lemma TakenNotSwept(c: Config, f: FreeSet, tails: seq<set<Tile>>, i: nat, num: nat, n: nat)
    requires Inv(c, f, tails) && FreeRun(f, i, num) && num > 0
    ensures i < |f.regions| && !TakeRun(c, f, i, num, n).regions[i].toSweep
  {
    hide Bottom, RunsOk, ReachOk, RegionOk;
    assert RunFree(f, i) && BitOk(c, f, i);
  }

  lemma BufferRunInv(c: Config, s: Heap, t: nat, i: nat, want: nat)
    requires HeapInv(c, s) && !Fits(c) && WantsBuffer(c, s, t, want) && c.size > 0
    requires s.free.left <= |s.free.bits| && s.free.right < |s.free.bits| && i < |s.free.regions|
    requires FreeRun(s.free, i, Required(c, c.buffer))
    ensures Inv(c, BufferRun(c, s.free, i, want), AllTails(c, s.tlabs[t := NewTlab(c, i, Bottom(c, i), want)]))
  {
    hide Inv, Required, FreeRun, TakeRun, Reaches, TlabsOk, Occupied, Bottom;
    var num := Required(c, c.buffer);
    var tails := AllTails(c, s.tlabs);
    TableSize(c, s);
    BufferRunIs(c, s.free, i, want);
    TakeRunKeeps(c, s.free, tails, i, num, want);
    TakenNotSwept(c, s.free, tails, i, num, want);
    var g := TakeRun(c, s.free, i, num, want);
    StartOf(c, g, tails, i);
    var r := g.regions[i].(starts := g.regions[i].starts + {Bottom(c, i)});
    var ts := tails[i] + Rest(Tile(Block(Bottom(c, i), c.buffer), Tail(t)), want);
    ReplaceStart(c, g, tails, i, r, ts);
    NewTails(c, s.tlabs, t, i, Bottom(c, i), want);
  }

  lemma BufferRunParts(c: Config, s: Heap, t: nat, i: nat, want: nat)
    requires HeapInv(c, s) && !Fits(c) && WantsBuffer(c, s, t, want) && c.size > 0
    requires s.free.left <= |s.free.bits| && s.free.right < |s.free.bits| && i < |s.free.regions|
    requires FreeRun(s.free, i, Required(c, c.buffer))
    ensures TlabsOk(c, BufferRun(c, s.free, i, want), s.tlabs[t := NewTlab(c, i, Bottom(c, i), want)])
    ensures Occupied(BufferRun(c, s.free, i, want))
  {
    hide Inv, Required, FreeRun, TakeRun, TlabsOk, Occupied, AllTails, Reaches, Bottom;
    var num := Required(c, c.buffer);
    BufferRunIs(c, s.free, i, want);
    TakenNotSwept(c, s.free, AllTails(c, s.tlabs), i, num, want);
    WholeBuffer(c, s);
    var g := TakeRun(c, s.free, i, num, want);
    TlabsTakeRun(c, s.free, i, num, want, s.tlabs);
    OccupiedTakeRun(c, s.free, i, num, want);
    var h := BufferRun(c, s.free, i, want);
    TlabsSame(c, g, i, h.regions[i], s.tlabs);
    OccupiedFrame(g, h, i);
    BufferTlab(c, g, h, i, want, s.tlabs, t);
  }

  lemma WholeBuffer(c: Config, s: Heap)
    requires HeapInv(c, s)
    ensures c.buffer % GRANULE == 0 && c.base > 0
  {
  }

  lemma InvRefillRun(c: Config, s: Heap, t: nat, i: nat, want: nat, after: Heap)
    requires HeapInv(c, s) && !Fits(c) && WantsBuffer(c, s, t, want) && RefillRun(c, s, t, i, want, after)
    ensures HeapInv(c, after)
  {
    hide Inv, Required, FreeRun, TlabsOk, Occupied, AllTails, BufferRun, Bottom;
    BufferRunInv(c, s, t, i, want);
    BufferRunParts(c, s, t, i, want);
  }

  lemma BufferTlab(c: Config, g: FreeSet, h: FreeSet, i: nat, want: nat, tlabs: seq<Tlab>, t: nat)
    requires i < |g.regions| && !g.regions[i].toSweep && g.regions[i].kind.HumongousStart? && !Fits(c)
    requires |h.regions| == |g.regions| && h.regions[i].kind.HumongousStart? && !h.regions[i].toSweep
    requires Reaches(c, g.regions, i, Bottom(c, i) + c.buffer) && h.regions == g.regions[i := h.regions[i]]
    requires TlabsOk(c, h, tlabs) && t < |tlabs| && 0 < want <= c.buffer && want % GRANULE == 0
    requires c.buffer % GRANULE == 0
    requires Bottom(c, i) > 0
    ensures TlabsOk(c, h, tlabs[t := NewTlab(c, i, Bottom(c, i), want)])
  {
    hide Bottom;
    var x := NewTlab(c, i, Bottom(c, i), want);
    assert Reaches(c, h.regions, i, x.end);
    assert TlabOk(c, h, x);
    hide TlabOk;
  }

  lemma InvRefill(c: Config, s: Heap, t: nat, i: nat, want: nat, after: Heap)
    requires HeapInv(c, s) && NextRefill(c, s, t, i, want, after)
    ensures HeapInv(c, after)
  {
    hide HeapInv, RefillSingle, RefillRun;
    if Fits(c) {
      InvRefillSingle(c, s, t, i, want, after);
    } else {
      InvRefillRun(c, s, t, i, want, after);
    }
  }

  /** A bump in a humongous run leaves the first header alone. */
  lemma BumpStart(c: Config, f: FreeSet, tails: seq<set<Tile>>, x: Tlab, n: nat, ts: set<Tile>)
    requires Inv(c, f, tails) && !Fits(c) && x.Tlab? && TlabOk(c, f, x) && OnlyTails(ts)
    requires 0 < n && x.top + n <= x.end
    ensures x.region < |f.regions| && x.region < |tails|
    ensures Inv(c, WithRegion(f, x.region, NewObject(f.regions[x.region], Block(x.top, n))), tails[x.region := ts])
  {
    TablesAlign(c, f, tails);
    hide Inv, Bottom, Reaches, OnlyTails;
    var i := x.region;
    StartOf(c, f, tails, i);
    ReachesLess(c, f.regions, i, x.end, x.top + n);
    ReplaceStart(c, f, tails, i, NewObject(f.regions[i], Block(x.top, n)), ts);
  }

  lemma TablesAlign(c: Config, f: FreeSet, tails: seq<set<Tile>>)
    requires Inv(c, f, tails)
    ensures |f.regions| == |tails| == c.count
  {
  }

  /** What the invariant says of one buffer in use. */
  lemma TlabFacts(c: Config, s: Heap, t: nat)
    requires HeapInv(c, s) && t < |s.tlabs| && s.tlabs[t].Tlab?
    ensures var x := s.tlabs[t];
            x.region < c.count && !s.free.regions[x.region].toSweep && 0 < x.top <= x.end &&
            (x.end - x.top) % GRANULE == 0 && (Fits(c) ==> s.free.regions[x.region].kind.Regular?)
    ensures TlabOk(c, s.free, s.tlabs[t]) && |s.free.regions| == c.count
    ensures |AllTails(c, s.tlabs)| == c.count && OnlyTails(AllTails(c, s.tlabs)[s.tlabs[t].region])
  {
    assert TlabOk(c, s.free, s.tlabs[t]);
    hide TlabsOk, Occupied, Reaches, Bottom, Tails;
    TailsOnly(c, s.free, AllTails(c, s.tlabs), s.tlabs[t].region);
  }

  lemma BumpInvRegular(c: Config, s: Heap, t: nat, x: Tlab, n: nat)
    requires HeapInv(c, s) && Fits(c) && t < |s.tlabs| && x == s.tlabs[t] && x.Tlab?
    requires 0 < n && n % GRANULE == 0 && x.top + n <= x.end && x.region < c.count == |s.free.regions|
    ensures Inv(c, WithRegion(s.free, x.region, NewObject(s.free.regions[x.region], Block(x.top, n))),
                AllTails(c, s.tlabs[t := x.(top := x.top + n)]))
  {
    hide Inv, AllTails, TlabsOk, Occupied, NewObject, TlabOk, OnlyTails, WithRegion, Rest;
    TlabFacts(c, s, t);
    TailIn(c, s, t);
    BumpTails(c, s.tlabs, t, x, n);
    PlaceKeeps(c, s.free, AllTails(c, s.tlabs), x.region, TailTile(x, t), n);
  }

  lemma BumpInvRun(c: Config, s: Heap, t: nat, x: Tlab, n: nat)
    requires HeapInv(c, s) && !Fits(c) && t < |s.tlabs| && x == s.tlabs[t] && x.Tlab?
    requires 0 < n && n % GRANULE == 0 && x.top + n <= x.end && x.region < c.count == |s.free.regions|
    ensures Inv(c, WithRegion(s.free, x.region, NewObject(s.free.regions[x.region], Block(x.top, n))),
                AllTails(c, s.tlabs[t := x.(top := x.top + n)]))
  {
    hide Inv, AllTails, TlabsOk, Occupied, NewObject, TlabOk, OnlyTails, WithRegion, Rest;
    TlabFacts(c, s, t);
    var tails := AllTails(c, s.tlabs);
    TailIn(c, s, t);
    BumpTails(c, s.tlabs, t, x, n);
    RestIsTail(tails[x.region], TailTile(x, t), n);
    BumpStart(c, s.free, tails, x, n, tails[x.region] - {TailTile(x, t)} + Rest(TailTile(x, t), n));
  }

  lemma TailsOnly(c: Config, f: FreeSet, tails: seq<set<Tile>>, i: nat)
    requires Inv(c, f, tails) && i < c.count
    ensures i < |tails| && OnlyTails(tails[i])
  {
    assert RegionOk(c, i, f.regions[i], tails[i]);
  }

  lemma BumpTlab(c: Config, f: FreeSet, tlabs: seq<Tlab>, t: nat, x: Tlab, n: nat)
    requires TlabsOk(c, f, tlabs) && t < |tlabs| && x == tlabs[t] && x.Tlab?
    requires 0 < n && n % GRANULE == 0 && x.top + n <= x.end
    ensures TlabsOk(c, f, tlabs[t := x.(top := x.top + n)])
  {
    hide Bottom, Reaches;
    assert TlabOk(c, f, x);
    assert TlabOk(c, f, x.(top := x.top + n));
    hide TlabOk;
  }

  lemma BumpKeepsInv(c: Config, s: Heap, t: nat, n: nat)
    requires HeapInv(c, s) && CanBump(s, t, n)
    ensures Inv(c, Bumped(s, t, n).free, AllTails(c, Bumped(s, t, n).tlabs))
  {
    hide Inv, HeapInv, AllTails, NewObject, WithRegion;
    TableSize(c, s);
    if Fits(c) {
      BumpInvRegular(c, s, t, s.tlabs[t], n);
    } else {
      BumpInvRun(c, s, t, s.tlabs[t], n);
    }
  }

  lemma BumpKeepsParts(c: Config, s: Heap, t: nat, n: nat)
    requires HeapInv(c, s) && CanBump(s, t, n)
    ensures TlabsOk(c, Bumped(s, t, n).free, Bumped(s, t, n).tlabs) && Occupied(Bumped(s, t, n).free)
  {
    hide Inv, AllTails, TlabsOk, Occupied, NewObject;
    var x := s.tlabs[t];
    var r := NewObject(s.free.regions[x.region], Block(x.top, n));
    NewObjectFrame(s.free.regions[x.region], Block(x.top, n));
    TlabsSame(c, s.free, x.region, r, s.tlabs);
    BumpTlab(c, WithRegion(s.free, x.region, r), s.tlabs, t, x, n);
    OccupiedFrame(s.free, WithRegion(s.free, x.region, r), x.region);
  }

  lemma BumpKeepsHeap(c: Config, s: Heap, t: nat, n: nat)
    requires HeapInv(c, s) && CanBump(s, t, n)
    ensures HeapInv(c, Bumped(s, t, n))
  {
    BumpKeepsInv(c, s, t, n);
    BumpKeepsParts(c, s, t, n);
    hide Inv, AllTails, TlabsOk, Occupied, Bumped;
  }

  lemma InvBump(c: Config, s: Heap, t: nat, n: nat, after: Heap)
    requires HeapInv(c, s) && NextBump(c, s, t, n, after)
    ensures HeapInv(c, after)
  {
    hide HeapInv, Bumped, CanBump;
    BumpKeepsHeap(c, s, t, n);
  }

  lemma NewObjectFrame(r: Region, b: Block)
    ensures NewObject(r, b).kind == r.kind && NewObject(r, b).toSweep == r.toSweep && NewObject(r, b).objects != {}
  {
    assert b in NewObject(r, b).objects;
  }

  lemma GiveBackStart(c: Config, f: FreeSet, tails: seq<set<Tile>>, x: Tlab, ts: set<Tile>)
    requires Inv(c, f, tails) && !Fits(c) && x.Tlab? && TlabOk(c, f, x) && OnlyTails(ts) && x.top < x.end
    requires x.region < |f.regions| && HasBucket(f.regions[x.region].lists, x.end - x.top)
    ensures x.region < |tails|
    ensures Inv(c, WithRegion(f, x.region, GiveBack(f.regions[x.region], Block(x.top, x.end - x.top))),
                tails[x.region := ts])
  {
    TablesAlign(c, f, tails);
    hide Inv, Bottom, Reaches, OnlyTails, Add;
    var i := x.region;
    StartOf(c, f, tails, i);
    AddedLength(f.regions[i].lists, Block(x.top, x.end - x.top));
    ReplaceStart(c, f, tails, i, GiveBack(f.regions[i], Block(x.top, x.end - x.top)), ts);
  }

  lemma RetireInvRegular(c: Config, s: Heap, t: nat, x: Tlab)
    requires HeapInv(c, s) && Fits(c) && t < |s.tlabs| && x == s.tlabs[t] && x.Tlab? && x.top < x.end
    requires x.region < c.count == |s.free.regions| && HasBucket(s.free.regions[x.region].lists, x.end - x.top)
    ensures Inv(c, WithRegion(s.free, x.region, GiveBack(s.free.regions[x.region], Block(x.top, x.end - x.top))),
                AllTails(c, s.tlabs[t := NoTlab]))
  {
    hide Inv, AllTails, TlabsOk, Occupied, GiveBack, TlabOk, HasBucket, OnlyTails, WithRegion;
    TlabFacts(c, s, t);
    TailIn(c, s, t);
    RetireTails(c, s.tlabs, t, x);
    GiveBackInv(c, s.free, AllTails(c, s.tlabs), x.region, TailTile(x, t));
  }

  lemma RetireInvRun(c: Config, s: Heap, t: nat, x: Tlab)
    requires HeapInv(c, s) && !Fits(c) && t < |s.tlabs| && x == s.tlabs[t] && x.Tlab? && x.top < x.end
    requires x.region < c.count == |s.free.regions| && HasBucket(s.free.regions[x.region].lists, x.end - x.top)
    ensures Inv(c, WithRegion(s.free, x.region, GiveBack(s.free.regions[x.region], Block(x.top, x.end - x.top))),
                AllTails(c, s.tlabs[t := NoTlab]))
  {
    TlabFacts(c, s, t);
    var tails := AllTails(c, s.tlabs);
    assert OnlyTails(tails[x.region] - {TailTile(x, t)});
    hide Inv, AllTails, TlabsOk, Occupied, GiveBack, TlabOk, HasBucket, OnlyTails, WithRegion;
    RetireTails(c, s.tlabs, t, x);
    GiveBackStart(c, s.free, tails, x, tails[x.region] - {TailTile(x, t)});
  }

  lemma RetireInv(c: Config, s: Heap, t: nat, x: Tlab)
    requires HeapInv(c, s) && t < |s.tlabs| && x == s.tlabs[t] && x.Tlab? && x.top < x.end
    requires x.region < c.count == |s.free.regions| && HasBucket(s.free.regions[x.region].lists, x.end - x.top)
    ensures Inv(c, WithRegion(s.free, x.region, GiveBack(s.free.regions[x.region], Block(x.top, x.end - x.top))),
                AllTails(c, s.tlabs[t := NoTlab]))
  {
    hide Inv, HeapInv, AllTails, GiveBack, HasBucket, WithRegion;
    if Fits(c) {
      RetireInvRegular(c, s, t, x);
    } else {
      RetireInvRun(c, s, t, x);
    }
  }

  /** Buffers and objects when a region only gains free space. */
  lemma GiveBackParts(c: Config, s: Heap, i: nat, r: Region, t: nat)
    requires TlabsOk(c, s.free, s.tlabs) && Occupied(s.free) && i < |s.free.regions| && t < |s.tlabs|
    requires r.kind == s.free.regions[i].kind && r.toSweep == s.free.regions[i].toSweep
    requires r.objects == s.free.regions[i].objects
    ensures TlabsOk(c, WithRegion(s.free, i, r), s.tlabs[t := NoTlab]) && Occupied(WithRegion(s.free, i, r))
  {
    hide TlabsOk, Occupied;
    TlabsSame(c, s.free, i, r, s.tlabs);
    NoTlabOk(c, WithRegion(s.free, i, r), s.tlabs, t);
    OccupiedAtStart(s.free, i);
    OccupiedFrame(s.free, WithRegion(s.free, i, r), i);
  }

  lemma RetireKeepsInv(c: Config, s: Heap, t: nat)
    requires HeapInv(c, s) && CanRetire(s, t) && s.tlabs[t].top < s.tlabs[t].end
    ensures Inv(c, Retired(s, t).free, AllTails(c, Retired(s, t).tlabs))
  {
    hide Inv, HeapInv, AllTails, GiveBack, HasBucket, WithRegion;
    TableSize(c, s);
    RetireInv(c, s, t, s.tlabs[t]);
  }

  lemma RetireKeepsParts(c: Config, s: Heap, t: nat)
    requires HeapInv(c, s) && CanRetire(s, t) && s.tlabs[t].top < s.tlabs[t].end
    ensures TlabsOk(c, Retired(s, t).free, Retired(s, t).tlabs) && Occupied(Retired(s, t).free)
  {
    hide Inv, AllTails, TlabsOk, Occupied, GiveBack, HasBucket, WithRegion;
    var x := s.tlabs[t];
    var b := Block(x.top, x.end - x.top);
    GiveBackFrame(s.free.regions[x.region], b);
    GiveBackParts(c, s, x.region, GiveBack(s.free.regions[x.region], b), t);
  }

  lemma RetireKeepsHeap(c: Config, s: Heap, t: nat)
    requires HeapInv(c, s) && CanRetire(s, t) && s.tlabs[t].top < s.tlabs[t].end
    ensures HeapInv(c, Retired(s, t))
  {
    RetireKeepsInv(c, s, t);
    RetireKeepsParts(c, s, t);
    hide Inv, AllTails, TlabsOk, Occupied, Retired;
  }

  lemma RetireEmpty(c: Config, s: Heap, t: nat)
    requires HeapInv(c, s) && CanRetire(s, t) && s.tlabs[t].top == s.tlabs[t].end
    ensures HeapInv(c, Retired(s, t))
  {
    hide Inv, AllTails, TlabsOk, Occupied, TlabOk;
    TlabFacts(c, s, t);
    RetireTails(c, s.tlabs, t, s.tlabs[t]);
    NoTlabOk(c, s.free, s.tlabs, t);
  }

  lemma InvRetire(c: Config, s: Heap, t: nat, after: Heap)
    requires HeapInv(c, s) && NextRetire(c, s, t, after)
    ensures HeapInv(c, after)
  {
    hide HeapInv, Retired;
    if s.tlabs[t].top == s.tlabs[t].end {
      RetireEmpty(c, s, t);
    } else {
      RetireKeepsHeap(c, s, t);
    }
  }

  lemma GiveBackFrame(r: Region, b: Block)
    requires HasBucket(r.lists, b.size)
    ensures GiveBack(r, b).kind == r.kind && GiveBack(r, b).toSweep == r.toSweep && GiveBack(r, b).objects == r.objects
  {
  }

  lemma OccupiedAtStart(f: FreeSet, i: nat)
    requires Occupied(f) && i < |f.regions|
    ensures f.regions[i].kind.HumongousStart? ==> f.regions[i].objects != {}
  {
  }

  lemma NoTlabOk(c: Config, f: FreeSet, tlabs: seq<Tlab>, t: nat)
    requires TlabsOk(c, f, tlabs) && t < |tlabs|
    ensures TlabsOk(c, f, tlabs[t := NoTlab])
  {
    hide Bottom, Reaches;
  }

  // ---------------------------------------------------------------------------------------------
  // The other steps
  // ---------------------------------------------------------------------------------------------

  lemma InvLarge(c: Config, s: Heap, beg: nat, n: nat, after: Heap)
    requires HeapInv(c, s) && NextLarge(c, s, beg, n, after)
    ensures HeapInv(c, after)
  {
    hide Inv, Required, FreeRun, TakeRun, TlabsOk, Occupied, AllTails;
    RequiredPositive(c, n);
    TakeRunKeeps(c, s.free, AllTails(c, s.tlabs), beg, Required(c, n), n);
    TlabsTakeRun(c, s.free, beg, Required(c, n), n, s.tlabs);
    OccupiedTakeRun(c, s.free, beg, Required(c, n), n);
  }

  lemma InvPrepare(c: Config, s: Heap, after: Heap)
    requires HeapInv(c, s) && NextPrepare(c, s, after)
    ensures HeapInv(c, after)
  {
    hide RegionOk, RunsOk, ReachOk, BitOk;
    var tails := AllTails(c, s.tlabs);
    forall j | 0 <= j < c.count ensures tails[j] == {} {
    }
    PrepareKeeps(c, s.free, tails);
  }

  /** A sweep touches no region that a buffer lies in or reaches into. */
  lemma TlabsSweep(c: Config, s: Heap, i: nat, marks: set<nat>, swept: Region, after: Heap)
    requires HeapInv(c, s) && NextSweep(c, s, i, marks, swept, after)
    ensures TlabsOk(c, after.free, s.tlabs)
  {
    hide RegionOk, BitOk, SweptTo, Tails, Bottom, Span, ReachOk;
    var f, g := s.free, after.free;
    forall t | 0 <= t < |s.tlabs| ensures TlabOk(c, g, s.tlabs[t]) {
      var x := s.tlabs[t];
      assert TlabOk(c, f, x);
      if x.Tlab? && f.regions[i].kind.HumongousStart? && Bottom(c, i) !in marks {
        assert !Owns(c, f.regions, i, x.region);
        if !Fits(c) {
          TrashRunReaches(c, f.regions, i, x.region, x.end);
        }
      } else if x.Tlab? && !Fits(c) {
        SweptReaches(c, f.regions, g.regions, i, x.region, x.end);
      }
    }
  }

  lemma SweptReaches(c: Config, regions: seq<Region>, after: seq<Region>, i: nat, j: nat, end: nat)
    requires i < |regions| == |after| && after == regions[i := after[i]] && Reaches(c, regions, j, end)
    requires !regions[i].kind.HumongousCont? || after[i].kind.HumongousCont?
    ensures Reaches(c, after, j, end)
  {
  }

  lemma OccupiedSweep(c: Config, s: Heap, i: nat, marks: set<nat>, swept: Region, after: Heap)
    requires HeapInv(c, s) && NextSweep(c, s, i, marks, swept, after)
    ensures Occupied(after.free)
  {
    hide RegionOk, BitOk, SweptTo, Tails, Bottom, Span, ReachOk, RunsOk;
  }

  lemma InvSweep(c: Config, s: Heap, i: nat, marks: set<nat>, swept: Region, after: Heap)
    requires HeapInv(c, s) && NextSweep(c, s, i, marks, swept, after)
    ensures HeapInv(c, after)
  {
    TlabsSweep(c, s, i, marks, swept, after);
    OccupiedSweep(c, s, i, marks, swept, after);
    hide Inv, SweepDone, TlabsOk, Occupied;
    SweepKeeps(c, s.free, AllTails(c, s.tlabs), i, marks, swept, after.free);
  }

  lemma InvRebuild(c: Config, s: Heap, after: Heap)
    requires HeapInv(c, s) && NextRebuild(c, s, after)
    ensures HeapInv(c, after)
  {
    RebuildKeeps(c, s.free, AllTails(c, s.tlabs));
    hide Inv, Tails, Reaches, Bottom;
    assert after.free.regions == s.free.regions;
    forall t | 0 <= t < |s.tlabs| ensures TlabOk(c, after.free, s.tlabs[t]) {
      assert TlabOk(c, s.free, s.tlabs[t]);
    }
  }

  lemma DecommittedOk(c: Config, i: nat, r: Region, tails: set<Tile>)
    requires RegionOk(c, i, r, tails) && r.starts == {} && !r.toSweep && !IsHumongous(r) && tails == {}
    ensures RegionOk(c, i, Decommitted(r), tails) && r.objects == {}
  {
    EmptyOk(|r.lists.buckets|);
    hide Ok, Blocks, Tiles;
    assert forall b :: b in r.objects ==> b.addr in Starts(r.objects);
  }

  lemma NoTails(tlabs: seq<Tlab>, i: nat)
    requires forall t :: 0 <= t < |tlabs| && tlabs[t].Tlab? ==> tlabs[t].region != i
    ensures Tails(tlabs, i) == {}
  {
  }

  lemma InvDecommit(c: Config, s: Heap, after: Heap)
    requires HeapInv(c, s) && NextDecommit(c, s, after) && VacantAtLock(s)
    ensures HeapInv(c, after)
  {
    var f, i := s.free, s.uncommit.region;
    var tails := AllTails(c, s.tlabs);
    NoTails(s.tlabs, i);
    assert RegionOk(c, i, f.regions[i], tails[i]);
    DecommittedOk(c, i, f.regions[i], tails[i]);
    hide RegionOk, RunsOk, ReachOk, Tails, Bottom;
    var r := Decommitted(f.regions[i]);
    RunsFrame(c, f.regions, i, r);
    ReachFrame(c, f.regions, i, r);
    OneRegion(c, f, tails, after.free, i, r, tails[i]);
    assert tails[i := tails[i]] == tails;
    forall k | 0 <= k < c.count && after.free.bits[k] ensures BitOk(c, after.free, k) {
      assert BitOk(c, f, k);
    }
    forall t | 0 <= t < |s.tlabs| ensures TlabOk(c, after.free, s.tlabs[t]) {
      assert TlabOk(c, f, s.tlabs[t]);
    }
  }

  lemma InvNext(c: Config, s: Heap, step: Step, after: Heap)
    requires HeapInv(c, s) && Next(c, s, step, after) && (step.Decommit? ==> VacantAtLock(s))
    ensures HeapInv(c, after)
  {
    hide HeapInv, NextShared, NextRefill, NextBump, NextRetire, NextLarge, NextPrepare;
    hide NextSweep, NextRebuild, NextDecommit;
    match step
    case Shared(t, i, n) => InvShared(c, s, t, i, n, after);
    case Refill(t, i, want) => InvRefill(c, s, t, i, want, after);
    case Bump(t, n) => InvBump(c, s, t, n, after);
    case Retire(t) => InvRetire(c, s, t, after);
    case Large(beg, n) => InvLarge(c, s, beg, n, after);
    case PrepareSweep => InvPrepare(c, s, after);
    case Sweep(i, marks, swept) => InvSweep(c, s, i, marks, swept, after);
    case RebuildSet => InvRebuild(c, s, after);
    case Look(_) => SameFree(c, s, after);
    case Skip => SameFree(c, s, after);
    case Decommit => InvDecommit(c, s, after);
  }

  lemma SameFree(c: Config, s: Heap, after: Heap)
    requires HeapInv(c, s) && after.free == s.free && after.tlabs == s.tlabs
    ensures HeapInv(c, after)
  {
  }

  lemma InvInit(c: Config, s: Heap)
    requires Init(c, s)
    ensures HeapInv(c, s)
  {
    hide VacantOk, Capacity;
    var tails := AllTails(c, s.tlabs);
    forall j | 0 <= j < c.count ensures tails[j] == {} {
    }
    var g := FreeSet(s.free.regions, FreshBits(c, s.free.regions), 0, c.count - 1);
    forall k | 0 <= k < c.count && g.bits[k] ensures BitOk(c, g, k) {
      assert MayAllocate(c, s.free.regions[k]);
    }
    AdjustKeeps(c, g);
  }

  /** The invariant holds in every state of every run in which no decommit hits a region in use. */
  lemma {:induction false} InvRun(c: Config, states: seq<Heap>, steps: seq<Step>, k: nat)
    requires CarefulRun(c, states, steps) && k < |states|
    ensures HeapInv(c, states[k])
  {
    hide HeapInv, Next, Init, VacantAtLock;
    if k == 0 {
      InvInit(c, states[0]);
    } else {
      InvRun(c, states, steps, k - 1);
      InvNext(c, states[k - 1], steps[k - 1], states[k]);
    }
  }
}

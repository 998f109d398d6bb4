/** Sweeping one region: a walk over the headers that rebuilds the free list and the object-start bitmap. */
module Sweeper {
  import opened Powers
  import opened Tiling
  import opened FreeListSpec
  import opened RegionModel

  ghost function Survivors(objects: set<Block>, marks: set<nat>): set<Block> {
    set b | b in objects && b.addr in marks
  }

  /** No free block begins where another one ends: every gap is one block. */
  ghost predicate Coalesced(l: Lists) {
    forall b, c :: b in Blocks(l) && c in Blocks(l) ==> b.End() != c.addr
  }

  /**
   * What a sweep of the region at [lo, hi) leaves: the marked objects, and one free block for each gap between them.
   */
  ghost predicate SweptTo(lo: nat, hi: nat, r: Region, marks: set<nat>, s: Region) {
    s.objects == Survivors(r.objects, marks) && RegularOk(lo, hi, s, {}) && Coalesced(s.lists) &&
    s.kind == r.kind && s.toSweep == r.toSweep && |s.lists.buckets| == |r.lists.buckets|
  }

  predicate AnyMarked(marks: set<nat>, lo: nat, hi: nat) {
    exists a :: lo <= a < hi && a in marks
  }

  // ---------------------------------------------------------------------------------------------
  // The walk
  // ---------------------------------------------------------------------------------------------

  /** Extending a tiled interval by one tile. */
  lemma AppendTile(lo: nat, hi: nat, tiles: set<Tile>, t: Tile)
    requires Tiles(lo, hi, tiles) && lo <= hi && t.block.addr == hi && t.block.size > 0
    ensures Tiles(lo, t.block.End(), tiles + {t})
  {
    var after := tiles + {t};
    forall a | lo <= a < t.block.End() ensures Covered(after, a) {
      if a < hi {
        assert Covered(tiles, a);
        var x :| x in tiles && x.block.Holds(a);
        assert x in after;
      } else {
        assert t in after && t.block.Holds(a);
      }
    }
  }

  ghost function DoneObjects(objects: set<Block>, marks: set<nat>, begin: nat): set<Block> {
    set b | b in objects && b.addr in marks && b.addr < begin
  }

  /** What holds of the rebuilt part when the walk stands at `begin` and the open gap starts at `gap`. */
  ghost predicate Swept(lo: nat, r: Region, marks: set<nat>, s: Region, gap: nat, begin: nat) {
    lo <= gap <= begin && Ok(s.lists) && |s.lists.buckets| == |r.lists.buckets| &&
    s.objects == DoneObjects(r.objects, marks, begin) && s.starts == Starts(s.objects) &&
    Tiles(lo, gap, Layout(s, {})) && HeadersOk(s) && Coalesced(s.lists) &&
    (forall b :: b in Blocks(s.lists) ==> b.End() != gap) &&
    (gap - lo) % GRANULE == 0 &&
    forall a :: a >= begin && a in r.headers ==> a in s.headers && s.headers[a] == r.headers[a]
  }

  ghost predicate Boundary(lo: nat, hi: nat, tiles: set<Tile>, begin: nat) {
    lo <= begin <= hi && (begin == lo || exists t :: t in tiles && t.block.End() == begin)
  }

  /** The block the walk stands on. */
  ghost predicate Standing(r: Region, t: Tile, begin: nat) {
    t in Layout(r, {}) && t.block.addr == begin && begin in r.headers &&
    r.headers[begin] == Header(t.block.size, t.owner.Free?) && t.block.Granular()
  }

  lemma StandsOn(lo: nat, hi: nat, r: Region, begin: nat) returns (t: Tile)
    requires RegularOk(lo, hi, r, {}) && Boundary(lo, hi, Layout(r, {}), begin) && begin < hi
    ensures Standing(r, t, begin) && Boundary(lo, hi, Layout(r, {}), begin + t.block.size)
  {
    hide Ok, Blocks;
    t := NextTile(lo, hi, Layout(r, {}), begin);
    if t.owner.Free? {
      BlockIsGranular(r.lists, t.block);
    }
  }

  /** The objects that start before the end of the current block are those before it and perhaps itself. */
  lemma DoneNext(lo: nat, hi: nat, r: Region, marks: set<nat>, t: Tile)
    requires RegularOk(lo, hi, r, {}) && t in Layout(r, {})
    ensures DoneObjects(r.objects, marks, t.block.End())
         == DoneObjects(r.objects, marks, t.block.addr) +
            (if t.owner.Object? && t.block.addr in marks then {t.block} else {})
  {
    hide Ok, Blocks;
    var tiles := Layout(r, {});
    forall b | b in r.objects ensures b == t.block || b.addr < t.block.addr || b.addr >= t.block.End() {
      assert Tile(b, Object) in tiles && b.Granular();
      assert Tile(b, Object) != t ==> Apart(b, t.block);
    }
    if t.owner.Free? {
      assert t.block !in r.objects;
    }
  }

  /** `Swept` with no gap open; the last free block may touch `begin`. */
  ghost predicate Closed(lo: nat, r: Region, marks: set<nat>, s: Region, begin: nat) {
    lo <= begin && Ok(s.lists) && |s.lists.buckets| == |r.lists.buckets| &&
    s.objects == DoneObjects(r.objects, marks, begin) && s.starts == Starts(s.objects) &&
    Tiles(lo, begin, Layout(s, {})) && HeadersOk(s) && Coalesced(s.lists) &&
    (begin - lo) % GRANULE == 0 &&
    forall a :: a >= begin && a in r.headers ==> a in s.headers && s.headers[a] == r.headers[a]
  }

  function CloseGap(s: Region, gap: nat, begin: nat): Region
    requires gap < begin && HasBucket(s.lists, begin - gap)
  {
    s.(lists := Add(s.lists, Block(gap, begin - gap)), headers := s.headers[gap := Header(begin - gap, true)])
  }

  lemma FreshGap(lo: nat, s: Region, gap: nat, begin: nat)
    requires Tiles(lo, gap, Layout(s, {})) && gap < begin
    ensures Block(gap, begin - gap) !in Blocks(s.lists)
  {
    var b := Block(gap, begin - gap);
    assert b in Blocks(s.lists) ==> Tile(b, Free) in Layout(s, {});
  }

  lemma CloseGapHeaders(lo: nat, s: Region, gap: nat, begin: nat)
    requires Tiles(lo, gap, Layout(s, {})) && HeadersOk(s) && gap < begin && HasBucket(s.lists, begin - gap)
    requires Blocks(Add(s.lists, Block(gap, begin - gap))) == Blocks(s.lists) + {Block(gap, begin - gap)}
    ensures HeadersOk(CloseGap(s, gap, begin))
  {
    hide Add, Blocks;
    forall b | b in s.objects ensures b.addr < gap {
      assert Tile(b, Object) in Layout(s, {});
    }
    forall b | b in Blocks(s.lists) ensures b.addr < gap {
      assert Tile(b, Free) in Layout(s, {});
    }
  }

  /** Turning the open gap into one free block. */
  lemma CloseGapKeeps(lo: nat, hi: nat, r: Region, marks: set<nat>, s: Region, gap: nat, begin: nat)
    requires Swept(lo, r, marks, s, gap, begin) && lo > 0 && gap < begin <= hi && (begin - lo) % GRANULE == 0
    requires hi - lo < Pow2(|r.lists.buckets|)
    ensures HasBucket(s.lists, begin - gap)
    ensures Closed(lo, r, marks, CloseGap(s, gap, begin), begin)
    ensures CloseGap(s, gap, begin).lists.bytes == s.lists.bytes + (begin - gap)
  {
    hide Ok, Blocks, Tiles, HeadersOk, Starts, DoneObjects, Pow2, FloorLog2;
    var b := Block(gap, begin - gap);
    FreshGap(lo, s, gap, begin);
    AddKeeps(s.lists, b);
    CloseGapHeaders(lo, s, gap, begin);
    AppendTile(lo, gap, Layout(s, {}), Tile(b, Free));
    var n := CloseGap(s, gap, begin);
    assert Layout(n, {}) == Layout(s, {}) + {Tile(b, Free)};
    CoalescedGap(lo, s, gap, begin);
  }

  lemma CoalescedGap(lo: nat, s: Region, gap: nat, begin: nat)
    requires Tiles(lo, gap, Layout(s, {})) && Coalesced(s.lists) && gap < begin && HasBucket(s.lists, begin - gap)
    requires forall b :: b in Blocks(s.lists) ==> b.End() != gap
    requires Blocks(Add(s.lists, Block(gap, begin - gap))) == Blocks(s.lists) + {Block(gap, begin - gap)}
    ensures Coalesced(CloseGap(s, gap, begin).lists)
  {
    hide Add, Blocks;
    forall b | b in Blocks(s.lists) ensures b.addr < gap {
      assert Tile(b, Free) in Layout(s, {});
    }
  }

  function Keep(s: Region, b: Block): Region {
    s.(objects := s.objects + {b}, starts := s.starts + {b.addr})
  }

  /** A marked object stays where it is. */
  lemma KeepKeeps(lo: nat, hi: nat, r: Region, marks: set<nat>, s: Region, t: Tile)
    requires RegularOk(lo, hi, r, {}) && Closed(lo, r, marks, s, t.block.addr)
    requires Standing(r, t, t.block.addr) && t.owner == Object && t.block.addr in marks
    ensures Swept(lo, r, marks, Keep(s, t.block), t.block.End(), t.block.End())
  {
    hide Ok, Blocks;
    DoneNext(lo, hi, r, marks, t);
    AppendTile(lo, t.block.addr, Layout(s, {}), t);
    var n := Keep(s, t.block);
    assert Layout(n, {}) == Layout(s, {}) + {t};
    forall b | b in Blocks(s.lists) ensures b.End() != t.block.End() {
      assert Tile(b, Free) in Layout(s, {});
    }
  }

  /** A free or unmarked block joins the open gap. */
  lemma SkipKeeps(lo: nat, hi: nat, r: Region, marks: set<nat>, s: Region, gap: nat, t: Tile)
    requires RegularOk(lo, hi, r, {}) && Swept(lo, r, marks, s, gap, t.block.addr)
    requires Standing(r, t, t.block.addr) && (t.owner.Free? || t.block.addr !in marks)
    ensures Swept(lo, r, marks, s, gap, t.block.End())
  {
    hide Ok, Blocks, Tiles;
    DoneNext(lo, hi, r, marks, t);
  }

  lemma NothingDone(lo: nat, hi: nat, r: Region, marks: set<nat>, n: nat)
    requires RegularOk(lo, hi, r, {}) && n == |r.lists.buckets|
    ensures Swept(lo, r, marks, r.(lists := Empty(n), starts := {}, objects := {}), lo, lo)
  {
    EmptyOk(n);
    hide Ok, Blocks, Empty;
    assert DoneObjects(r.objects, marks, lo) == {} by {
      forall b | b in r.objects ensures b.addr >= lo {
        assert Tile(b, Object) in Layout(r, {});
      }
    }
    var s := r.(lists := Empty(n), starts := {}, objects := {});
    assert Layout(s, {}) == {};
  }

  /** Unmarked memory: the walk would find no survivor. */
  lemma NothingMarked(lo: nat, hi: nat, r: Region, marks: set<nat>, s: Region)
    requires RegularOk(lo, hi, r, {}) && Swept(lo, r, marks, s, lo, lo) && !AnyMarked(marks, lo, hi) && lo <= hi
    ensures Swept(lo, r, marks, s, lo, hi)
  {
    hide Ok, Blocks, Tiles;
    assert DoneObjects(r.objects, marks, lo) == DoneObjects(r.objects, marks, hi) by {
      assert forall b :: b in r.objects && b.addr in marks ==> b.addr >= hi || b.addr < lo;
    }
  }

  lemma Finished(lo: nat, hi: nat, r: Region, marks: set<nat>, s: Region)
    requires RegularOk(lo, hi, r, {}) && Closed(lo, r, marks, s, hi)
    requires s.kind == r.kind && s.toSweep == r.toSweep
    ensures SweptTo(lo, hi, r, marks, s)
  {
    hide Ok, Blocks, Pow2;
    forall b | b in r.objects ensures b.addr < hi {
      assert Tile(b, Object) in Layout(r, {}) && b.Granular();
    }
    assert DoneObjects(r.objects, marks, hi) == Survivors(r.objects, marks);
  }

  // ---------------------------------------------------------------------------------------------
  // What the contract of a sweep determines
  // ---------------------------------------------------------------------------------------------

  /** Where one tile begins the one before it ends. */
  lemma PreviousTile(lo: nat, hi: nat, tiles: set<Tile>, t: Tile) returns (p: Tile)
    requires Tiles(lo, hi, tiles) && t in tiles && t.block.addr > lo
    ensures p in tiles && p.block.End() == t.block.addr
  {
    assert Covered(tiles, t.block.addr - 1);
    p :| p in tiles && p.block.Holds(t.block.addr - 1);
    assert Apart(p.block, t.block);
  }

  ghost predicate StartsAfter(lo: nat, survivors: set<Block>, b: Block) {
    b.addr == lo || exists o :: o in survivors && o.End() == b.addr
  }

  ghost predicate EndsBefore(hi: nat, survivors: set<Block>, b: Block) {
    b.End() == hi || exists o :: o in survivors && o.addr == b.End()
  }

  /** Every free block reaches from a survivor or the bottom of the region to the next survivor or the end. */
  lemma GapsAreMaximal(lo: nat, hi: nat, r: Region, marks: set<nat>, s: Region, b: Block)
    requires SweptTo(lo, hi, r, marks, s) && b in Blocks(s.lists)
    ensures StartsAfter(lo, s.objects, b) && EndsBefore(hi, s.objects, b)
  {
    hide Ok, Blocks;
    var tiles := Layout(s, {});
    var t := Tile(b, Free);
    assert t in tiles;
    if b.addr > lo {
      var p := PreviousTile(lo, hi, tiles, t);
      assert p.owner == Object && p.block in s.objects;
    }
    if b.End() < hi {
      var n := NextTile(lo, hi, tiles, b.End());
      assert n.owner == Object && n.block in s.objects;
    }
  }

  lemma GapInOther(lo: nat, hi: nat, r: Region, marks: set<nat>, s: Region, q: Region, b: Block)
    requires SweptTo(lo, hi, r, marks, s) && SweptTo(lo, hi, r, marks, q) && b in Blocks(s.lists)
    ensures b in Blocks(q.lists)
  {
    GapsAreMaximal(lo, hi, r, marks, s, b);
    hide Ok, Blocks, HeadersOk, Coalesced, Pow2;
    assert Tile(b, Free) in Layout(s, {});
    assert b.addr != lo ==> exists t :: t in Layout(q, {}) && t.block.End() == b.addr by {
      if b.addr != lo {
        var o :| o in s.objects && o.End() == b.addr;
        assert Tile(o, Object) in Layout(q, {});
      }
    }
    var u := NextTile(lo, hi, Layout(q, {}), b.addr);
    NoObjectInGap(lo, hi, s, b);
    assert u.owner.Free?;
    GapsAreMaximal(lo, hi, r, marks, q, u.block);
    SameGap(lo, hi, s, q, b, u.block);
  }

  lemma SameGap(lo: nat, hi: nat, s: Region, q: Region, b: Block, g: Block)
    requires Tiles(lo, hi, Layout(s, {})) && Tiles(lo, hi, Layout(q, {})) && s.objects == q.objects
    requires b in Blocks(s.lists) && g in Blocks(q.lists) && b.addr == g.addr
    requires EndsBefore(hi, s.objects, b) && EndsBefore(hi, q.objects, g)
    ensures b == g
  {
    hide Ok, Blocks;
    assert Tile(b, Free) in Layout(s, {}) && Tile(g, Free) in Layout(q, {});
    NoObjectInGap(lo, hi, s, b);
    NoObjectInGap(lo, hi, q, g);
  }

  lemma NoObjectInGap(lo: nat, hi: nat, s: Region, b: Block)
    requires Tiles(lo, hi, Layout(s, {})) && b in Blocks(s.lists)
    ensures forall o :: o in s.objects ==> !b.Holds(o.addr)
  {
    hide Ok, Blocks;
    assert Tile(b, Free) in Layout(s, {});
    forall o | o in s.objects ensures !b.Holds(o.addr) {
      assert Tile(o, Object) in Layout(s, {});
      assert Apart(o, b);
    }
  }

  /**
   * The marks determine the outcome: however the region is walked, or whether the walk is skipped because nothing is
   * marked, the same objects and the same free blocks are left.
   */
  lemma SweepIsDetermined(lo: nat, hi: nat, r: Region, marks: set<nat>, s: Region, q: Region)
    requires SweptTo(lo, hi, r, marks, s) && SweptTo(lo, hi, r, marks, q)
    ensures s.objects == q.objects && s.starts == q.starts && Blocks(s.lists) == Blocks(q.lists)
  {
    hide Ok, Blocks;
    forall b ensures b in Blocks(s.lists) <==> b in Blocks(q.lists) {
      if b in Blocks(s.lists) {
        GapInOther(lo, hi, r, marks, s, q, b);
      }
      if b in Blocks(q.lists) {
        GapInOther(lo, hi, r, marks, q, s, b);
      }
    }
  }

  /** The size of the largest free block, 0 when there is none. */
  ghost predicate LargestOf(l: Lists, n: nat) {
    (forall b :: b in Blocks(l) ==> b.size <= n) && (n == 0 || exists b :: b in Blocks(l) && b.size == n)
  }

  lemma LargestAdd(l: Lists, b: Block, n: nat)
    requires Ok(l) && HasBucket(l, b.size) && b.Granular() && b !in Blocks(l) && LargestOf(l, n)
    ensures LargestOf(Add(l, b), Max(n, b.size))
  {
    hide Ok, Blocks, Add;
    AddKeeps(l, b);
    assert b in Blocks(Add(l, b));
    if n > 0 {
      var c :| c in Blocks(l) && c.size == n;
      assert c in Blocks(Add(l, b));
    }
  }

  lemma LargestEmpty(n: nat)
    requires n > 0
    ensures LargestOf(Empty(n), 0) && Empty(n).bytes == 0
  {
    EmptyOk(n);
  }

  class HeapRegion {
    const bottom: nat
    const size: nat
    var kind: Kind
    var lists: Lists
    var starts: set<nat>
    var headers: map<nat, Header>
    var toSweep: bool
    var used: nat
    var largest: nat
    var lastSweepFree: nat
    ghost var objects: set<Block>

    constructor (bottom: nat, size: nat, r: Region)
      ensures this.bottom == bottom && this.size == size && Abs() == r && used == 0
    {
      this.bottom, this.size := bottom, size;
      kind, lists, starts, headers, toSweep := r.kind, r.lists, r.starts, r.headers, r.toSweep;
      objects := r.objects;
      used, largest, lastSweepFree := 0, 0, 0;
    }

    ghost function Abs(): Region
      reads this
    {
      Region(kind, lists, starts, headers, toSweep, objects)
    }

    /** `free_list.add` of the gap [gap, begin), with the bookkeeping beside it. */
    method AddGap(marks: set<nat>, gap: nat, begin: nat, ghost r: Region)
      requires RegularOk(bottom, bottom + size, r, {}) && Swept(bottom, r, marks, Abs(), gap, begin)
      requires bottom > 0 && gap < begin <= bottom + size && (begin - bottom) % GRANULE == 0
      requires LargestOf(lists, largest)
      modifies this`lists, this`headers, this`largest
      ensures HasBucket(old(lists), begin - gap) && Abs() == CloseGap(old(Abs()), gap, begin)
      ensures Closed(bottom, r, marks, Abs(), begin) && LargestOf(lists, largest)
      ensures lists.bytes == old(lists.bytes) + (begin - gap)
    {
      hide RegularOk, Closed, Ok, Blocks, Pow2, Add;
      EasyBound(bottom, bottom + size, r);
      CloseGapKeeps(bottom, bottom + size, r, marks, Abs(), gap, begin);
      FreshGap(bottom, Abs(), gap, begin);
      LargestAdd(lists, Block(gap, begin - gap), largest);
      lists := Add(lists, Block(gap, begin - gap));
      headers := headers[gap := Header(begin - gap, true)];
      largest := Max(largest, begin - gap);
    }

    /** The loop over the headers, from the bottom of the region to its end. */
    method Walk(marks: set<nat>, ghost r: Region) returns (gap: nat, inUse: nat, free: nat)
      requires bottom > 0 && size > 0 && size % GRANULE == 0 && RegularOk(bottom, bottom + size, r, {})
      requires Swept(bottom, r, marks, Abs(), bottom, bottom) && LargestOf(lists, largest) && lists.bytes == 0
      requires objects == {}
      modifies this`lists, this`headers, this`largest, this`starts, this`objects
      ensures Swept(bottom, r, marks, Abs(), gap, bottom + size) && bottom <= gap <= bottom + size
      ensures LargestOf(lists, largest) && inUse + free == gap - bottom && lists.bytes == free
      ensures gap == bottom <==> objects == {}
    {
      hide RegularOk, Swept, Closed, CloseGap, Boundary, Layout, LargestOf;
      AtBottom(bottom, bottom + size, r);
      gap, inUse, free := bottom, 0, 0;
      var begin: nat := bottom;
      var end: nat := bottom + size;
      while begin != end
        invariant Boundary(bottom, end, Layout(r, {}), begin) && bottom <= begin <= end
        invariant (begin - bottom) % GRANULE == 0
        invariant Swept(bottom, r, marks, Abs(), gap, begin) && bottom <= gap <= begin && LargestOf(lists, largest)
        invariant inUse + free == gap - bottom && lists.bytes == free
        invariant gap == bottom <==> objects == {}
        decreases end - begin
      {
        ghost var t := StandsOn(bottom, end, r, begin);
        HeaderRead(bottom, r, marks, Abs(), gap, begin);
        BoundaryInside(bottom, end, Layout(r, {}), begin + t.block.size);
        var header := headers[begin];
        if header.free || begin !in marks {
          SkipKeeps(bottom, end, r, marks, Abs(), gap, t);
          begin := begin + header.size;
          continue;
        }
        if gap != begin {
          AddGap(marks, gap, begin, r);
          free := free + (begin - gap);
        } else {
          NoGap(bottom, r, marks, Abs(), begin);
        }
        OwnerObject(r, t);
        KeepKeeps(bottom, end, r, marks, Abs(), t);
        inUse := inUse + header.size;
        starts := starts + {begin};
        objects := objects + {t.block};
        begin := begin + header.size;
        gap := begin;
      }
    }

    /** Sweeps a parseable region with no buffer in it; true means that nothing in it was marked. */
    method SweepRegion(marks: set<nat>) returns (empty: bool)
      requires bottom > 0 && size > 0 && size % GRANULE == 0
      requires RegularOk(bottom, bottom + size, Abs(), {})
      modifies this
      ensures SweptTo(bottom, bottom + size, old(Abs()), marks, Abs())
      ensures used + lastSweepFree == size && lastSweepFree == lists.bytes
      ensures LargestOf(lists, largest)
      ensures empty <==> Survivors(old(objects), marks) == {}
    {
      hide RegularOk, Swept, Closed, SweptTo, CloseGap, Layout, LargestOf, Survivors, Empty;
      ghost var r := Abs();
      var gap: nat, end: nat := bottom, bottom + size;
      lists := Empty(|lists.buckets|);
      largest := 0;
      starts := {};
      objects := {};
      NothingDone(bottom, end, r, marks, |r.lists.buckets|);
      BucketsExist(bottom, end, r);
      LargestEmpty(|r.lists.buckets|);
      var inUse: nat, free: nat := 0, 0;
      if AnyMarked(marks, bottom, end) {
        gap, inUse, free := Walk(marks, r);
      } else {
        NothingMarked(bottom, end, r, marks, Abs());
      }
      if gap != end {
        AddGap(marks, gap, end, r);
        free := free + (end - gap);
      } else {
        NoGap(bottom, r, marks, Abs(), end);
      }
      used := inUse;
      lastSweepFree := free;
      Finished(bottom, end, r, marks, Abs());
      SurvivorsAre(bottom, end, r, marks, Abs());
      empty := gap == bottom;
    }
  }

  lemma EasyBound(lo: nat, hi: nat, r: Region)
    requires RegularOk(lo, hi, r, {})
    ensures hi - lo < Pow2(|r.lists.buckets|)
  {
  }

  lemma BucketsExist(lo: nat, hi: nat, r: Region)
    requires RegularOk(lo, hi, r, {})
    ensures |r.lists.buckets| > 0
  {
  }

  lemma AtBottom(lo: nat, hi: nat, r: Region)
    requires lo <= hi
    ensures Boundary(lo, hi, Layout(r, {}), lo)
  {
  }

  lemma BoundaryInside(lo: nat, hi: nat, tiles: set<Tile>, a: nat)
    requires Boundary(lo, hi, tiles, a)
    ensures lo <= a <= hi
  {
  }

  /** Ahead of the walk the memory is as it was. */
  lemma HeaderRead(lo: nat, r: Region, marks: set<nat>, s: Region, gap: nat, begin: nat)
    requires Swept(lo, r, marks, s, gap, begin) && begin in r.headers
    ensures begin in s.headers && s.headers[begin] == r.headers[begin]
  {
  }

  lemma NoGap(lo: nat, r: Region, marks: set<nat>, s: Region, begin: nat)
    requires Swept(lo, r, marks, s, begin, begin)
    ensures Closed(lo, r, marks, s, begin)
  {
  }

  lemma OwnerObject(r: Region, t: Tile)
    requires t in Layout(r, {}) && !t.owner.Free?
    ensures t.owner == Object
  {
  }

  lemma SurvivorsAre(lo: nat, hi: nat, r: Region, marks: set<nat>, s: Region)
    requires SweptTo(lo, hi, r, marks, s)
    ensures s.objects == Survivors(r.objects, marks)
  {
  }
}

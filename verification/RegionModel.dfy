/** A heap region: its memory headers, free list, object-start bitmap and state, and how they must agree. */
module RegionModel {
  import opened Powers
  import opened Tiling
  import opened FreeListSpec

  datatype Kind = EmptyUncommitted | EmptyCommitted | Regular | HumongousStart | HumongousCont | Trash

  /** The header word of an object or of a free entry. */
  datatype Header = Header(size: nat, free: bool)

  /**
   * `headers` is the region's memory seen as header words; stale words of former blocks stay in it. `starts` is the
   * object-start bitmap. `objects` records which blocks have been handed out and not been freed since.
   */
  datatype Region = Region(
    kind: Kind,
    lists: Lists,
    starts: set<nat>,
    headers: map<nat, Header>,
    toSweep: bool,
    objects: set<Block>
  ) {
    predicate IsEmpty() { kind.EmptyUncommitted? || kind.EmptyCommitted? }
  }

  ghost function ObjectTiles(objects: set<Block>): set<Tile> {
    set b | b in objects :: Tile(b, Object)
  }

  ghost function FreeTiles(l: Lists): set<Tile> {
    set b | b in Blocks(l) :: Tile(b, Free)
  }

  /** Everything that lies in the region: objects, free entries, and the buffer tails given from outside. */
  ghost function Layout(r: Region, tails: set<Tile>): set<Tile> {
    ObjectTiles(r.objects) + FreeTiles(r.lists) + tails
  }

  ghost function Starts(objects: set<Block>): set<nat> {
    set b | b in objects :: b.addr
  }

  /** The memory can be parsed: the header of every object and free entry tells its size and whether it is free. */
  ghost predicate HeadersOk(r: Region) {
    (forall b :: b in r.objects ==> b.addr in r.headers && r.headers[b.addr] == Header(b.size, false)) &&
    (forall b :: b in Blocks(r.lists) ==> b.addr in r.headers && r.headers[b.addr] == Header(b.size, true))
  }

  ghost predicate GranularObjects(objects: set<Block>) {
    forall b :: b in objects ==> b.Granular()
  }

  /** A Regular region at [lo, hi): tiled, parseable, and indexed exactly by its bitmap. */
  ghost predicate RegularOk(lo: nat, hi: nat, r: Region, tails: set<Tile>) {
    Ok(r.lists) && hi - lo < Pow2(|r.lists.buckets|) && GranularObjects(r.objects) &&
    Tiles(lo, hi, Layout(r, tails)) && HeadersOk(r) && r.starts == Starts(r.objects)
  }

  // ---------------------------------------------------------------------------------------------
  // Conservative resolution
  // ---------------------------------------------------------------------------------------------

  /** The greatest member at or below `a`; 0 is the null address. */
  function Floor(starts: set<nat>, a: nat): nat {
    if a in starts || a == 0 then a else Floor(starts, a - 1)
  }

  lemma {:induction false} FloorIs(starts: set<nat>, a: nat, s: nat)
    requires s in starts && s <= a && forall x :: x in starts && x <= a ==> x <= s
    ensures Floor(starts, a) == s
  {
    if a !in starts && a > 0 {
      FloorIs(starts, a - 1, s);
    }
  }

  /** Any address inside an object resolves to the object's header. */
  lemma RegularResolves(lo: nat, hi: nat, r: Region, tails: set<Tile>, b: Block, a: nat)
    requires RegularOk(lo, hi, r, tails) && b in r.objects && b.Holds(a)
    ensures Floor(r.starts, a) == b.addr
  {
    var tiles := Layout(r, tails);
    assert Tile(b, Object) in tiles;
    forall x | x in r.starts && x <= a ensures x <= b.addr {
      var o :| o in r.objects && o.addr == x;
      assert Tile(o, Object) in tiles;
      assert o == b || Apart(o, b);
      assert o.Granular();
    }
    FloorIs(r.starts, a, b.addr);
  }

  // ---------------------------------------------------------------------------------------------
  // Allocation
  // ---------------------------------------------------------------------------------------------

  /** Before the first allocation an empty region becomes one free block. */
  function MakeRegular(lo: nat, size: nat, r: Region): Region
    requires HasBucket(r.lists, size)
  {
    if r.IsEmpty()
    then r.(kind := Regular, lists := Add(r.lists, Block(lo, size)), headers := r.headers[lo := Header(size, true)])
    else r.(kind := Regular)
  }

  datatype Allocation = Got(region: Region, addr: nat) | Full(region: Region)

  /** A block goes to the free list, which writes its header. */
  function GiveBack(r: Region, b: Block): Region
    requires HasBucket(r.lists, b.size)
  {
    r.(lists := Add(r.lists, b), headers := r.headers[b.addr := Header(b.size, true)])
  }

  /** Take a block, give back what is beyond the request. */
  function AllocateFrom(m: Region, n: nat): Allocation
    requires Ok(m.lists)
  {
    var t := Take(m.lists, n);
    if t.Refused? then Full(m.(lists := t.lists))
    else
      TakenFits(m.lists, n);
      BlockIsGranular(m.lists, t.block);
      if t.block.size > n
      then Got(GiveBack(m.(lists := t.lists), Block(t.block.addr + n, t.block.size - n)), t.block.addr)
      else Got(m.(lists := t.lists), t.block.addr)
  }

  /** `HeapRegion::allocate`. */
  function Allocate(lo: nat, size: nat, r: Region, n: nat): Allocation
    requires HasBucket(r.lists, size) && Ok(MakeRegular(lo, size, r).lists)
  {
    AllocateFrom(MakeRegular(lo, size, r), n)
  }

  /** The mutator's header for a new object, and the object's start bit. */
  function NewObject(r: Region, b: Block): Region {
    r.(objects := r.objects + {b}, headers := r.headers[b.addr := Header(b.size, false)], starts := r.starts + {b.addr})
  }

  ghost predicate OnlyTails(tails: set<Tile>) {
    forall t :: t in tails ==> t.owner.Tail?
  }

  /** Nothing lies in an empty region. */
  ghost predicate VacantOk(r: Region) {
    Ok(r.lists) && Blocks(r.lists) == {} && r.starts == {} && r.objects == {}
  }

  /** A region the allocator may look into. */
  ghost predicate AllocatableOk(lo: nat, hi: nat, r: Region, tails: set<Tile>) {
    lo > 0 && lo < hi && (hi - lo) % GRANULE == 0 && hi - lo < Pow2(|r.lists.buckets|) && OnlyTails(tails) &&
    if r.IsEmpty() then VacantOk(r) && tails == {} else r.kind.Regular? && RegularOk(lo, hi, r, tails)
  }

  lemma MakeRegularKeeps(lo: nat, hi: nat, r: Region, tails: set<Tile>)
    requires AllocatableOk(lo, hi, r, tails)
    ensures HasBucket(r.lists, hi - lo)
    ensures RegularOk(lo, hi, MakeRegular(lo, hi - lo, r), tails)
    ensures |MakeRegular(lo, hi - lo, r).lists.buckets| == |r.lists.buckets|
  {
    hide Ok, Pow2, Blocks;
    if r.IsEmpty() {
      var b := Block(lo, hi - lo);
      AddKeeps(r.lists, b);
      var m := MakeRegular(lo, hi - lo, r);
      assert Layout(m, {}) == {Tile(b, Free)};
      forall a | lo <= a < hi ensures Covered(Layout(m, {}), a) {
        assert Tile(b, Free) in Layout(m, {}) && b.Holds(a);
      }
    }
  }

  lemma LayoutSwap(r: Region, s: Region, tails: set<Tile>, b: Block, cut: Tile)
    requires OnlyTails(tails) && b in Blocks(r.lists) && s.objects == r.objects && cut.owner.Tail?
    requires Blocks(s.lists) == Blocks(r.lists) - {b}
    ensures Layout(s, tails + {cut}) == Layout(r, tails) - {Tile(b, Free)} + {cut}
  {
    hide Blocks;
  }

  lemma LayoutSplit(r: Region, s: Region, tails: set<Tile>, b: Block, cut: Tile, rest: Block)
    requires OnlyTails(tails) && b in Blocks(r.lists) && s.objects == r.objects && cut.owner.Tail?
    requires Blocks(s.lists) == Blocks(r.lists) - {b} + {rest}
    ensures Layout(s, tails + {cut}) == Layout(r, tails) - {Tile(b, Free)} + {cut, Tile(rest, Free)}
  {
    hide Blocks;
  }

  /** The remainder of a split block cannot be an entry of the list already. */
  lemma RestIsFresh(lo: nat, hi: nat, r: Region, tails: set<Tile>, b: Block, n: nat)
    requires RegularOk(lo, hi, r, tails) && b in Blocks(r.lists) && 0 < n < b.size
    ensures Block(b.addr + n, b.size - n) !in Blocks(r.lists)
    ensures forall o :: o in r.objects ==> o.addr != b.addr + n
    ensures forall c :: c in Blocks(r.lists) ==> c.addr != b.addr + n
  {
    hide Ok, Blocks;
    var tiles := Layout(r, tails);
    assert Tile(b, Free) in tiles;
    forall o | o in r.objects ensures o.addr != b.addr + n {
      assert Tile(o, Object) in tiles && o.Granular();
      assert Apart(o, b);
    }
    forall c | c in Blocks(r.lists) ensures c.addr != b.addr + n {
      assert Tile(c, Free) in tiles;
      BlockIsGranular(r.lists, c);
      assert c == b || Apart(c, b);
    }
  }

  /** The block the allocator takes was free, so it is no buffer's tail yet. */
  lemma CutIsFresh(lo: nat, hi: nat, r: Region, tails: set<Tile>, b: Block, cut: Tile)
    requires RegularOk(lo, hi, r, tails) && OnlyTails(tails) && b in Blocks(r.lists)
    requires cut.owner.Tail? && cut.block.addr == b.addr
    ensures cut !in tails
  {
    hide Ok, Blocks;
    var tiles := Layout(r, tails);
    BlockIsGranular(r.lists, b);
    assert Tile(b, Free) in tiles;
    assert cut in tails ==> cut in tiles && Apart(cut.block, b) && cut.block.size > 0;
  }

  lemma TakeRegular(lo: nat, hi: nat, m: Region, tails: set<Tile>, n: nat, owner: Owner)
    requires RegularOk(lo, hi, m, tails) && OnlyTails(tails) && owner.Tail? && n > 0 && n % GRANULE == 0
    requires Take(m.lists, n).Taken?
    ensures var t := Take(m.lists, n);
            t.block.size == n ==> RegularOk(lo, hi, m.(lists := t.lists), tails + {Tile(t.block, owner)})
  {
    hide Ok, Blocks, Take, Tiles, Pow2;
    var t := Take(m.lists, n);
    TakenFits(m.lists, n);
    var cut := Tile(t.block, owner);
    LayoutSwap(m, m.(lists := t.lists), tails, t.block, cut);
    FreeTileIn(m, tails, t.block);
    RetagTiles(lo, hi, Layout(m, tails), Tile(t.block, Free), cut);
  }

  lemma FreeTileIn(r: Region, tails: set<Tile>, b: Block)
    requires b in Blocks(r.lists)
    ensures Tile(b, Free) in Layout(r, tails)
  {
  }

  /** Taking a larger block than asked for and giving the end of it back. */
  lemma SplitRegular(lo: nat, hi: nat, m: Region, tails: set<Tile>, n: nat, owner: Owner)
    requires RegularOk(lo, hi, m, tails) && OnlyTails(tails) && owner.Tail? && n > 0 && n % GRANULE == 0
    requires Take(m.lists, n).Taken? && Take(m.lists, n).block.size > n
    ensures var t := Take(m.lists, n);
            var rest := Block(t.block.addr + n, t.block.size - n);
            HasBucket(t.lists, rest.size) &&
            RegularOk(lo, hi, GiveBack(m.(lists := t.lists), rest), tails + {Tile(Block(t.block.addr, n), owner)})
  {
    hide Ok, Blocks, Take, Tiles, Pow2, Add;
    var t := Take(m.lists, n);
    var rest := Block(t.block.addr + n, t.block.size - n);
    TakenFits(m.lists, n);
    BlockIsGranular(m.lists, t.block);
    RestIsFresh(lo, hi, m, tails, t.block, n);
    AddKeeps(t.lists, rest);
    var cut := Tile(Block(t.block.addr, n), owner);
    var s := GiveBack(m.(lists := t.lists), rest);
    FreeTileIn(m, tails, t.block);
    LayoutSplit(m, s, tails, t.block, cut, rest);
    SplitTiles(lo, hi, Layout(m, tails), Tile(t.block, Free), cut, Tile(rest, Free));
  }

  /** What an allocation leaves: the rest of the region as it was, and a block of the requested size cut out of it. */
  ghost predicate Cuts(lo: nat, hi: nat, r: Region, tails: set<Tile>, n: nat, owner: Owner, got: Allocation) {
    got.region.kind == Regular && got.region.objects == r.objects && got.region.toSweep == r.toSweep &&
    |got.region.lists.buckets| == |r.lists.buckets| &&
    if got.Full? then RegularOk(lo, hi, got.region, tails)
    else got.addr > 0 && Tile(Block(got.addr, n), owner) !in tails &&
         RegularOk(lo, hi, got.region, tails + {Tile(Block(got.addr, n), owner)})
  }

  lemma RefusedKeeps(lo: nat, hi: nat, m: Region, tails: set<Tile>, n: nat)
    requires RegularOk(lo, hi, m, tails) && n > 0 && Take(m.lists, n).Refused?
    ensures RegularOk(lo, hi, m.(lists := Take(m.lists, n).lists), tails)
    ensures |Take(m.lists, n).lists.buckets| == |m.lists.buckets|
  {
    hide Take, Tiles, Pow2, Blocks, Ok;
    RefusedMeansSmall(m.lists, n);
    assert Layout(m.(lists := Take(m.lists, n).lists), tails) == Layout(m, tails);
  }

  lemma AllocateFromTaken(m: Region, n: nat)
    requires Ok(m.lists) && Take(m.lists, n).Taken?
    ensures var t := Take(m.lists, n);
            t.block.Granular() && t.block.size >= n && t.block in Blocks(m.lists) &&
            (t.block.size == n ==> AllocateFrom(m, n) == Got(m.(lists := t.lists), t.block.addr)) &&
            (t.block.size > n ==>
               HasBucket(t.lists, t.block.size - n) &&
               AllocateFrom(m, n) ==
                 Got(GiveBack(m.(lists := t.lists), Block(t.block.addr + n, t.block.size - n)), t.block.addr))
  {
    hide Take, Add, Pow2, Blocks, Ok;
    TakenFits(m.lists, n);
    BlockIsGranular(m.lists, Take(m.lists, n).block);
  }

  lemma TakenCuts(lo: nat, hi: nat, m: Region, tails: set<Tile>, n: nat, owner: Owner)
    requires m.kind.Regular? && RegularOk(lo, hi, m, tails) && OnlyTails(tails) && owner.Tail? && n > 0
    requires n % GRANULE == 0
    requires Take(m.lists, n).Taken?
    ensures AllocateFrom(m, n).Got? && AllocateFrom(m, n).addr > 0
    ensures Tile(Block(AllocateFrom(m, n).addr, n), owner) !in tails
    ensures RegularOk(lo, hi, AllocateFrom(m, n).region, tails + {Tile(Block(AllocateFrom(m, n).addr, n), owner)})
  {
    assert Ok(m.lists);
    hide Take, Add, Pow2, Blocks, Ok, RegularOk, OnlyTails, AllocateFrom, GiveBack, HasBucket;
    var t := Take(m.lists, n);
    AllocateFromTaken(m, n);
    CutIsFresh(lo, hi, m, tails, t.block, Tile(Block(t.block.addr, n), owner));
    if t.block.size > n {
      SplitRegular(lo, hi, m, tails, n, owner);
    } else {
      TakeRegular(lo, hi, m, tails, n, owner);
    }
  }

  /** Allocating touches nothing but the free list and the headers. */
  lemma AllocateFromFrame(m: Region, n: nat)
    requires Ok(m.lists) && n > 0
    ensures var got := AllocateFrom(m, n).region;
            got.kind == m.kind && got.objects == m.objects && got.toSweep == m.toSweep &&
            |got.lists.buckets| == |m.lists.buckets|
  {
    hide Take, Add, Pow2, Blocks, Ok;
    var t := Take(m.lists, n);
    if t.Refused? {
      RefusedMeansSmall(m.lists, n);
    } else {
      TakenFits(m.lists, n);
      BlockIsGranular(m.lists, t.block);
      if t.block.size > n {
        AddedLength(t.lists, Block(t.block.addr + n, t.block.size - n));
      }
    }
  }

  lemma AllocateFromCuts(lo: nat, hi: nat, m: Region, tails: set<Tile>, n: nat, owner: Owner)
    requires m.kind.Regular? && RegularOk(lo, hi, m, tails) && OnlyTails(tails) && owner.Tail? && n > 0
    requires n % GRANULE == 0
    ensures Cuts(lo, hi, m, tails, n, owner, AllocateFrom(m, n))
  {
    AllocateFromFrame(m, n);
    if Take(m.lists, n).Taken? {
      hide RegularOk, AllocateFrom;
      TakenCuts(lo, hi, m, tails, n, owner);
    } else {
      hide RegularOk;
      RefusedKeeps(lo, hi, m, tails, n);
    }
  }

  /** An allocation cuts a block of exactly the requested size out of the free space and changes nothing else. */
  lemma AllocateCuts(lo: nat, hi: nat, r: Region, tails: set<Tile>, n: nat, owner: Owner)
    requires AllocatableOk(lo, hi, r, tails) && owner.Tail? && n > 0 && n % GRANULE == 0
    ensures HasBucket(r.lists, hi - lo) && Ok(MakeRegular(lo, hi - lo, r).lists)
    ensures Cuts(lo, hi, r, tails, n, owner, Allocate(lo, hi - lo, r, n))
  {
    MakeRegularKeeps(lo, hi, r, tails);
    var m := MakeRegular(lo, hi - lo, r);
    hide RegularOk, AllocateFrom;
    AllocateFromCuts(lo, hi, m, tails, n, owner);
  }

  /**
   * A region that refuses a request has been used before, and has only smaller blocks than the request rounds up to.
   */
  lemma FullMeansSmall(lo: nat, hi: nat, r: Region, tails: set<Tile>, n: nat, k: nat)
    requires AllocatableOk(lo, hi, r, tails) && hi - lo == Pow2(k) && 0 < n <= hi - lo
    requires HasBucket(r.lists, hi - lo) && Ok(MakeRegular(lo, hi - lo, r).lists)
    requires Allocate(lo, hi - lo, r, n).Full?
    ensures r.kind.Regular? && forall b :: b in Blocks(r.lists) ==> b.size < Pow2(CeilLog2(n))
  {
    if r.IsEmpty() {
      EmptyRegionServes(lo, hi, r, n, k);
    } else {
      hide Blocks, Take, Pow2;
      RefusedMeansSmall(r.lists, n);
    }
  }

  lemma AddedLength(l: Lists, b: Block)
    requires HasBucket(l, b.size)
    ensures |Add(l, b).buckets| == |l.buckets|
  {
    IndexInRange(l, b.size);
  }

  /** An untouched region serves every request up to its size. */
  lemma EmptyRegionServes(lo: nat, hi: nat, r: Region, n: nat, k: nat)
    requires AllocatableOk(lo, hi, r, {}) && r.IsEmpty() && 0 < n <= hi - lo == Pow2(k)
    ensures HasBucket(r.lists, hi - lo) && Ok(MakeRegular(lo, hi - lo, r).lists)
    ensures Allocate(lo, hi - lo, r, n).Got? && Allocate(lo, hi - lo, r, n).addr == lo
  {
    hide Blocks;
    MakeRegularKeeps(lo, hi, r, {});
    AddKeeps(r.lists, Block(lo, hi - lo));
    WholeBlockServes(MakeRegular(lo, hi - lo, r).lists, Block(lo, hi - lo), n, k);
  }

  /** A region serves a request that its list can serve or, untouched, one that is not larger than itself. */
  lemma ServesIff(lo: nat, hi: nat, r: Region, tails: set<Tile>, n: nat, k: nat)
    requires AllocatableOk(lo, hi, r, tails) && hi - lo == Pow2(k) && n > 1
    ensures HasBucket(r.lists, hi - lo) && Ok(MakeRegular(lo, hi - lo, r).lists)
    ensures Allocate(lo, hi - lo, r, n).Got? <==>
            if r.IsEmpty() then n <= hi - lo
            else LargeBlock(r.lists, CeilLog2(n)) || LuckyHead(r.lists, n, CeilLog2(n))
  {
    hide Blocks, Take, Pow2, LargeBlock, LuckyHead;
    MakeRegularKeeps(lo, hi, r, tails);
    if !r.IsEmpty() {
      TakeSucceedsIff(r.lists, n);
    } else if n <= hi - lo {
      EmptyRegionServes(lo, hi, r, n, k);
    } else {
      AddKeeps(r.lists, Block(lo, hi - lo));
      NothingLarge(MakeRegular(lo, hi - lo, r).lists, Block(lo, hi - lo), n);
    }
  }

  lemma NothingLarge(l: Lists, b: Block, n: nat)
    requires Ok(l) && Blocks(l) == {b} && b.size < n
    ensures Take(l, n).Refused?
  {
    hide Blocks, Take;
    if Take(l, n).Taken? {
      TakenFits(l, n);
    }
  }

  lemma BumpIndexes(lo: nat, hi: nat, r: Region, tails: set<Tile>, tail: Tile, n: nat)
    requires RegularOk(lo, hi, r, tails) && OnlyTails(tails) && tail in tails && lo > 0
    requires 0 < n <= tail.block.size && n % GRANULE == 0
    ensures var s := NewObject(r, Block(tail.block.addr, n));
            HeadersOk(s) && GranularObjects(s.objects) && s.starts == Starts(s.objects)
  {
    hide Ok, Blocks, Pow2;
    TailIsApart(lo, hi, r, tails, tail);
    assert tail in Layout(r, tails);
  }

  /** The front of a buffer's tail becomes an object. */
  lemma BumpKeeps(lo: nat, hi: nat, r: Region, tails: set<Tile>, tail: Tile, n: nat)
    requires RegularOk(lo, hi, r, tails) && OnlyTails(tails) && tail in tails && lo > 0
    requires 0 < n <= tail.block.size && n % GRANULE == 0
    ensures var b := Block(tail.block.addr, n);
            var rest := Tile(Block(tail.block.addr + n, tail.block.size - n), tail.owner);
            RegularOk(lo, hi, NewObject(r, b), tails - {tail} + (if n < tail.block.size then {rest} else {}))
  {
    BumpIndexes(lo, hi, r, tails, tail, n);
    hide Ok, Blocks, Pow2, HeadersOk, GranularObjects, Starts, Tiles;
    var b := Block(tail.block.addr, n);
    var rest := Tile(Block(tail.block.addr + n, tail.block.size - n), tail.owner);
    var s := NewObject(r, b);
    assert tail in Layout(r, tails);
    if n < tail.block.size {
      SplitTiles(lo, hi, Layout(r, tails), tail, Tile(b, Object), rest);
      BumpLayout(r, tails, tail, n, {rest});
      assert {Tile(b, Object)} + {rest} == {Tile(b, Object), rest};
    } else {
      RetagTiles(lo, hi, Layout(r, tails), tail, Tile(b, Object));
      BumpLayout(r, tails, tail, n, {});
      assert {Tile(b, Object)} + {} == {Tile(b, Object)};
    }
  }

  lemma BumpLayout(r: Region, tails: set<Tile>, tail: Tile, n: nat, rest: set<Tile>)
    requires tail in tails && tail.owner.Tail?
    ensures Layout(NewObject(r, Block(tail.block.addr, n)), tails - {tail} + rest)
         == Layout(r, tails) - {tail} + ({Tile(Block(tail.block.addr, n), Object)} + rest)
  {
    hide Blocks;
    var b := Block(tail.block.addr, n);
    assert ObjectTiles(r.objects + {b}) == ObjectTiles(r.objects) + {Tile(b, Object)};
  }

  lemma TailIsApart(lo: nat, hi: nat, r: Region, tails: set<Tile>, tail: Tile)
    requires RegularOk(lo, hi, r, tails) && OnlyTails(tails) && tail in tails
    ensures forall o :: o in r.objects ==> o.addr != tail.block.addr
    ensures forall c :: c in Blocks(r.lists) ==> c.addr != tail.block.addr
  {
    hide Ok, Blocks;
    var tiles := Layout(r, tails);
    assert tail in tiles;
    forall o | o in r.objects ensures o.addr != tail.block.addr {
      assert Tile(o, Object) in tiles && Apart(o, tail.block);
    }
    forall c | c in Blocks(r.lists) ensures c.addr != tail.block.addr {
      assert Tile(c, Free) in tiles && Apart(c, tail.block);
    }
  }

  /** The whole of a buffer's tail becomes free. */
  lemma GiveBackKeeps(lo: nat, hi: nat, r: Region, tails: set<Tile>, tail: Tile)
    requires RegularOk(lo, hi, r, tails) && OnlyTails(tails) && tail in tails && tail.block.Granular()
    ensures HasBucket(r.lists, tail.block.size)
    ensures RegularOk(lo, hi, GiveBack(r, tail.block), tails - {tail})
    ensures |GiveBack(r, tail.block).lists.buckets| == |r.lists.buckets|
  {
    hide Ok, Blocks, Pow2, Add;
    var b := tail.block;
    assert tail in Layout(r, tails);
    TailIsApart(lo, hi, r, tails, tail);
    AddKeeps(r.lists, b);
    var s := GiveBack(r, b);
    RetagTiles(lo, hi, Layout(r, tails), tail, Tile(b, Free));
    assert Layout(s, tails - {tail}) == Layout(r, tails) - {tail} + {Tile(b, Free)};
  }
}

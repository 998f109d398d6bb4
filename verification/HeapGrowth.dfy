/** What each step of the heap allocates, and when it does. */
module HeapGrowth {
  import opened Tiling
  import opened RegionModel
  import opened FreeSetModel
  import opened Humongous
  import opened HeapRun
  import opened HeapInvariant
  import opened HeapSafety

  /** Region i has gained the object b, and no other object has come or gone. */
  ghost predicate Gains(s: Heap, after: Heap, i: nat, b: Block) {
    |after.free.regions| == |s.free.regions| && i < |s.free.regions| &&
    forall j :: 0 <= j < |s.free.regions| ==>
      after.free.regions[j].objects == if j == i then s.free.regions[j].objects + {b} else s.free.regions[j].objects
  }

  ghost predicate SameObjects(s: Heap, after: Heap) {
    |after.free.regions| == |s.free.regions| &&
    forall j :: 0 <= j < |s.free.regions| ==> after.free.regions[j].objects == s.free.regions[j].objects
  }

  /** A try that places a block places it where no object is. */
  lemma PlacedIsFresh(c: Config, s: Heap, i: nat, n: nat)
    requires HeapInv(c, s) && CanTry(c, s, i, n)
    ensures Try(c, s, i, n).Placed? <==> Serves(c, s.free.regions[i], n)
    ensures |Try(c, s, i, n).after.regions| == |s.free.regions|
    ensures forall j :: 0 <= j < |s.free.regions| ==>
              Try(c, s, i, n).after.regions[j].objects == s.free.regions[j].objects
    ensures Try(c, s, i, n).Placed? ==> forall o :: o in s.free.regions[i].objects ==> o.addr != Try(c, s, i, n).addr
  {
    TryFrom(c, s, i, n, Tail(0));
    TableSize(c, s);
    hide HeapInv, CanTry, Try, Serves, Tails, Inv;
    var out, tails := Try(c, s, i, n), AllTails(c, s.tlabs);
    if out.Placed? {
      var cut := Tile(Block(out.addr, n), Tail(0));
      var ts := tails[i] + {cut};
      FreshInRegion(c, out.after, tails[i := ts], i, cut);
    }
  }

  lemma FreshInRegion(c: Config, f: FreeSet, tails: seq<set<Tile>>, i: nat, cut: Tile)
    requires Inv(c, f, tails) && i < c.count && f.regions[i].kind.Regular? && i < |tails| && cut in tails[i]
    ensures forall o :: o in f.regions[i].objects ==> o.addr != cut.block.addr
  {
    RegularOf(c, f, tails, i);
    hide Inv, RegularOk;
    TailIsApart(Bottom(c, i), Top(c, i), f.regions[i], tails[i], cut);
  }

  /** Outside any buffer: an object exactly when the region can serve the request. */
  lemma SharedGains(c: Config, s: Heap, i: nat, n: nat, after: Heap) returns (addr: nat)
    requires HeapInv(c, s) && NextShared(c, s, i, n, after)
    ensures i < |s.free.regions|
    ensures if Serves(c, s.free.regions[i], n)
            then Gains(s, after, i, Block(addr, n)) && forall o :: o in s.free.regions[i].objects ==> o.addr != addr
            else SameObjects(s, after)
  {
    hide HeapInv, CanTry, Try, Serves;
    CanTryMeans(c, s, i, n);
    PlacedIsFresh(c, s, i, n);
    addr := if Try(c, s, i, n).Placed? then Try(c, s, i, n).addr else 0;
  }

  lemma CanTryMeans(c: Config, s: Heap, i: nat, n: nat)
    requires CanTry(c, s, i, n)
    ensures i < |s.free.regions|
  {
  }

  /**
   * A buffer, with its first object: in one region exactly when that can serve the whole buffer, else the bottom of a
   * humongous run.
   */
  lemma RefillGains(c: Config, s: Heap, t: nat, i: nat, want: nat, after: Heap) returns (addr: nat)
    requires HeapInv(c, s) && NextRefill(c, s, t, i, want, after)
    ensures i < |s.free.regions| && t < |s.tlabs|
    ensures if Fits(c) && !Serves(c, s.free.regions[i], c.buffer) then SameObjects(s, after) && after.tlabs == s.tlabs
            else Gains(s, after, i, Block(addr, want)) && (!Fits(c) ==> addr == Bottom(c, i)) &&
                 after.tlabs == s.tlabs[t := Tlab(i, addr, addr + want, addr + c.buffer)] &&
                 forall o :: o in s.free.regions[i].objects ==> o.addr != addr
  {
    hide HeapInv, CanTry, Try, Serves;
    if Fits(c) {
      CanTryMeans(c, s, i, c.buffer);
      PlacedIsFresh(c, s, i, c.buffer);
      addr := if Try(c, s, i, c.buffer).Placed? then Try(c, s, i, c.buffer).addr else 0;
    } else {
      RequiredPositive(c, c.buffer);
      RunGains(c, s, i, Required(c, c.buffer), want);
      addr := Bottom(c, i);
    }
  }

  lemma RunGains(c: Config, s: Heap, beg: nat, num: nat, n: nat)
    requires HeapInv(c, s) && c.size > 0 && s.free.left <= |s.free.bits| && s.free.right < |s.free.bits|
    requires FreeRun(s.free, beg, num) && num > 0
    ensures beg < |s.free.regions|
    ensures Gains(s, s.(free := TakeRun(c, s.free, beg, num, n)), beg, Block(Bottom(c, beg), n))
    ensures s.free.regions[beg].objects == {}
  {
    TableSize(c, s);
    RunRegionsAre(c, s.free, beg, num, n);
    var g := TakeRun(c, s.free, beg, num, n);
    assert g.regions == RunRegions(c, s.free.regions, beg, num, n);
    hide HeapInv, Required, Bottom, TakeRun, RunRegions, FreeRun, RegionOk;
    forall j | beg <= j < beg + num ensures j < |s.free.regions| && s.free.regions[j].objects == {} {
      RegionOf(c, s, j);
      VacantHasNoObjects(c, j, s.free.regions[j], AllTails(c, s.tlabs)[j]);
    }
  }

  /** A buffer in use serves an object exactly when that fits into its unused end. */
  lemma BumpFitsIff(c: Config, s: Heap, t: nat, n: nat)
    requires HeapInv(c, s) && t < |s.tlabs| && s.tlabs[t].Tlab? && n > 0 && n % GRANULE == 0
    ensures (exists after :: NextBump(c, s, t, n, after)) <==> n <= s.tlabs[t].end - s.tlabs[t].top
  {
    TlabFacts(c, s, t);
    if CanBump(s, t, n) {
      assert NextBump(c, s, t, n, Bumped(s, t, n));
    }
  }

  /** A thread bumps the front of its buffer off as an object, which is a new one when buffers fit. */
  lemma BumpGains(c: Config, s: Heap, t: nat, n: nat, after: Heap)
    requires HeapInv(c, s) && NextBump(c, s, t, n, after)
    ensures t < |s.tlabs| == |after.tlabs| && s.tlabs[t].Tlab? && s.tlabs[t].region < |s.free.regions|
    ensures var x := s.tlabs[t];
            Gains(s, after, x.region, Block(x.top, n)) && after.tlabs == s.tlabs[t := x.(top := x.top + n)] &&
            (Fits(c) ==> forall o :: o in s.free.regions[x.region].objects ==> o.addr != x.top)
  {
    TlabFacts(c, s, t);
    var x := s.tlabs[t];
    if Fits(c) {
      UnusedEnd(c, s, t);
      FreshInRegion(c, s.free, AllTails(c, s.tlabs), x.region, Tile(Block(x.top, x.end - x.top), Tail(t)));
    }
  }

  lemma UnusedEnd(c: Config, s: Heap, t: nat)
    requires HeapInv(c, s) && Fits(c) && t < |s.tlabs| && s.tlabs[t].Tlab? && s.tlabs[t].top < s.tlabs[t].end
    ensures var x := s.tlabs[t];
            x.region < |AllTails(c, s.tlabs)| &&
            Tile(Block(x.top, x.end - x.top), Tail(t)) in AllTails(c, s.tlabs)[x.region]
  {
    TlabFacts(c, s, t);
    hide HeapInv, TlabOk;
  }

  /** A humongous object takes the place it was asked for. */
  lemma LargeGains(c: Config, s: Heap, beg: nat, n: nat, after: Heap)
    requires HeapInv(c, s) && NextLarge(c, s, beg, n, after)
    ensures Gains(s, after, beg, Block(Bottom(c, beg), n)) && s.free.regions[beg].objects == {}
  {
    RequiredPositive(c, n);
    hide HeapInv, Required, TakeRun, FreeRun, Gains;
    RunGains(c, s, beg, Required(c, n), n);
  }

  /** Retiring, preparing, rebuilding, looking and sparing allocate nothing and free nothing. */
  lemma OthersGainNothing(c: Config, s: Heap, step: Step, after: Heap)
    requires HeapInv(c, s) && Next(c, s, step, after)
    requires step.Retire? || step.PrepareSweep? || step.RebuildSet? || step.Look? || step.Skip?
    ensures SameObjects(s, after)
  {
    TableSize(c, s);
    hide HeapInv, Rebuild;
    if step.RebuildSet? {
      RebuildKeepsRegions(c, s.free);
    }
  }
}

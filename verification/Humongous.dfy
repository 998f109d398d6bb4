/** Humongous runs and the collector's passes over the region table. */
module Humongous {
  import opened Tiling
  import opened FreeListSpec
  import opened RegionModel
  import opened FreeSetModel
  import opened Sweeper

  // ---------------------------------------------------------------------------------------------
  // Allocating a run
  // ---------------------------------------------------------------------------------------------

  predicate RunFree(f: FreeSet, j: nat) {
    j < |f.bits| && j < |f.regions| && f.bits[j] && (f.regions[j].IsEmpty() || f.regions[j].kind.Trash?)
  }

  /** `num` adjacent regions from `beg` on that the mutator may take whole. */
  predicate FreeRun(f: FreeSet, beg: nat, num: nat) {
    beg + num <= |f.regions| && forall j :: beg <= j < beg + num ==> RunFree(f, j)
  }

  function MakeHumongous(c: Config, j: nat, r: Region, first: bool, n: nat): Region {
    var q := Recycled(r).(lists := Empty(|r.lists.buckets|));
    if first
    then q.(kind := HumongousStart, headers := q.headers[Bottom(c, j) := Header(n, false)],
            objects := {Block(Bottom(c, j), n)})
    else q.(kind := HumongousCont)
  }

  function RunRegions(c: Config, regions: seq<Region>, beg: nat, num: nat, n: nat): seq<Region> {
    seq(|regions|, j requires 0 <= j < |regions| =>
      if beg <= j < beg + num then MakeHumongous(c, j, regions[j], j == beg, n) else regions[j])
  }

  function ClearBits(bits: seq<bool>, beg: nat, num: nat): seq<bool> {
    seq(|bits|, j requires 0 <= j < |bits| => !(beg <= j < beg + num) && bits[j])
  }

  function TakeRun(c: Config, f: FreeSet, beg: nat, num: nat, n: nat): FreeSet
    requires f.left <= |f.bits| && f.right < |f.bits|
  {
    var g := f.(regions := RunRegions(c, f.regions, beg, num, n), bits := ClearBits(f.bits, beg, num));
    if beg == f.left || beg + num == f.right + 1 then Adjust(g) else g
  }

  lemma OwnerUnique(c: Config, regions: seq<Region>, s: nat, t: nat, j: nat)
    requires c.size > 0 && RunsOk(c, regions) && Owns(c, regions, s, j) && Owns(c, regions, t, j)
    ensures s == t
  {
    if s < t {
      assert Owns(c, regions, s, t);
    } else if t < s {
      assert Owns(c, regions, t, s);
    }
  }

  lemma RequiredPositive(c: Config, n: nat)
    requires c.size > 0 && n > 0
    ensures Required(c, n) >= 1
  {
    assert n + c.size - 1 >= c.size;
  }

  lemma {:induction false} RequiredMonotone(c: Config, m: nat, n: nat)
    requires c.size > 0 && m <= n
    ensures Required(c, m) <= Required(c, n)
  {
    var x, y := m + c.size - 1, n + c.size - 1;
    assert x == x / c.size * c.size + x % c.size && y == y / c.size * c.size + y % c.size;
    if x / c.size > y / c.size {
      Multiples(y / c.size, x / c.size, c.size);
    }
  }

  lemma {:induction false} Multiples(a: nat, b: nat, d: nat)
    requires a < b
    ensures a * d + d <= b * d
  {
    assert b * d == (b - 1) * d + d;
    if a < b - 1 {
      Multiples(a, b - 1, d);
    }
  }

  /** What the table looks like after a run has been taken for an object of n bytes. */
  lemma RunRegionsAre(c: Config, f: FreeSet, beg: nat, num: nat, n: nat)
    requires c.size > 0 && FreeRun(f, beg, num) && num > 0
    ensures var after := RunRegions(c, f.regions, beg, num, n);
            |after| == |f.regions| &&
            (forall j :: 0 <= j < |after| && !(beg <= j < beg + num) ==> after[j] == f.regions[j]) &&
            (forall j :: beg < j < beg + num ==> after[j].kind.HumongousCont?) &&
            (forall j :: beg <= j < beg + num ==> f.regions[j].IsEmpty() || f.regions[j].kind.Trash?) &&
            after[beg].kind.HumongousStart? && Span(c, after, beg) == Required(c, n) &&
            after[beg].objects == {Block(Bottom(c, beg), n)}
  {
    hide Bottom, Required;
    forall j | beg <= j < beg + num ensures f.regions[j].IsEmpty() || f.regions[j].kind.Trash? {
      assert RunFree(f, j);
    }
  }

  lemma TakeRunOwned(c: Config, f: FreeSet, beg: nat, num: nat, n: nat)
    requires c.size > 0 && RunsOk(c, f.regions) && FreeRun(f, beg, num) && 0 < Required(c, n) <= num
    ensures var after := RunRegions(c, f.regions, beg, num, n);
            (forall s: nat, j: nat :: Owns(c, after, s, j) ==> after[j].kind.HumongousCont?) &&
            (forall s :: 0 <= s < |after| && after[s].kind.HumongousStart? ==> s + Span(c, after, s) <= |after|)
  {
    RunRegionsAre(c, f, beg, num, n);
    hide Bottom, Required, RunRegions, FreeRun, Span;
    var after := RunRegions(c, f.regions, beg, num, n);
    forall s: nat | s < |after| && s != beg && after[s].kind.HumongousStart?
      ensures Span(c, after, s) == Span(c, f.regions, s)
    {
      SpanSame(c, f.regions, after, s);
    }
    forall s: nat, j: nat | Owns(c, after, s, j) ensures after[j].kind.HumongousCont? {
      if s != beg {
        assert Owns(c, f.regions, s, j);
      }
    }
  }

  lemma TakeRunOwners(c: Config, f: FreeSet, beg: nat, num: nat, n: nat)
    requires c.size > 0 && RunsOk(c, f.regions) && FreeRun(f, beg, num) && 0 < Required(c, n) == num && Fits(c)
    ensures var after := RunRegions(c, f.regions, beg, num, n);
            forall j :: 0 <= j < |after| && after[j].kind.HumongousCont? ==> exists s: nat :: Owns(c, after, s, j)
  {
    RunRegionsAre(c, f, beg, num, n);
    hide Bottom, Required, RunRegions, FreeRun, Span;
    var after := RunRegions(c, f.regions, beg, num, n);
    forall j: nat | j < |after| && after[j].kind.HumongousCont? ensures exists s: nat :: Owns(c, after, s, j) {
      if beg <= j < beg + num {
        assert Owns(c, after, beg, j);
      } else {
        var s: nat :| Owns(c, f.regions, s, j);
        SpanSame(c, f.regions, after, s);
        assert Owns(c, after, s, j);
      }
    }
  }

  lemma TakeRunRuns(c: Config, f: FreeSet, beg: nat, num: nat, n: nat)
    requires c.size > 0 && RunsOk(c, f.regions) && FreeRun(f, beg, num) && 0 < Required(c, n) <= num
    requires Fits(c) ==> num == Required(c, n)
    ensures RunsOk(c, RunRegions(c, f.regions, beg, num, n))
  {
    hide Required, RunRegions, FreeRun, Span;
    TakeRunOwned(c, f, beg, num, n);
    if Fits(c) {
      TakeRunOwners(c, f, beg, num, n);
    }
  }

  /** A run of enough regions holds the object. */
  lemma RunReaches(c: Config, regions: seq<Region>, beg: nat, num: nat, end: nat)
    requires beg + num <= |regions| && forall j :: beg < j < beg + num ==> regions[j].kind.HumongousCont?
    requires end <= Bottom(c, beg + num)
    ensures Reaches(c, regions, beg, end)
  {
    forall j: nat | beg < j && Bottom(c, j) < end ensures j < |regions| && regions[j].kind.HumongousCont? {
      if j >= beg + num {
        BottomMonotone(c, beg + num, j);
      }
    }
  }

  lemma {:induction false} BottomMonotone(c: Config, i: nat, j: nat)
    requires i <= j
    ensures Bottom(c, i) <= Bottom(c, j) && (i < j ==> Top(c, i) <= Bottom(c, j))
    decreases j
  {
    if i < j {
      BottomMonotone(c, i, j - 1);
    }
  }

  lemma {:induction false} BottomPlus(c: Config, i: nat, num: nat)
    ensures Bottom(c, i + num) == Bottom(c, i) + num * c.size
  {
    if num > 0 {
      BottomPlus(c, i, num - 1);
      assert num * c.size == (num - 1) * c.size + c.size;
    }
  }

  /** A run of the required length covers the object. */
  lemma RequiredCovers(c: Config, n: nat)
    requires c.size > 0
    ensures n <= Required(c, n) * c.size
  {
    var x := n + c.size - 1;
    assert x == x / c.size * c.size + x % c.size;
  }

  lemma RunHolds(c: Config, beg: nat, num: nat, n: nat)
    requires c.size > 0 && Required(c, n) <= num
    ensures Bottom(c, beg) + n <= Bottom(c, beg + num)
  {
    RequiredCovers(c, n);
    BottomPlus(c, beg, Required(c, n));
    BottomMonotone(c, beg + Required(c, n), beg + num);
  }

  lemma TakeRunReach(c: Config, f: FreeSet, beg: nat, num: nat, n: nat)
    requires c.size > 0 && ReachOk(c, f.regions) && FreeRun(f, beg, num) && 0 < Required(c, n) <= num
    ensures ReachOk(c, RunRegions(c, f.regions, beg, num, n))
  {
    RunRegionsAre(c, f, beg, num, n);
    hide Bottom, Required, RunRegions, FreeRun, Span;
    var after := RunRegions(c, f.regions, beg, num, n);
    RunHolds(c, beg, num, n);
    RunReaches(c, after, beg, num, Bottom(c, beg) + n);
    forall s: nat, b | s < |after| && after[s].kind.HumongousStart? && b in after[s].objects
      ensures b.addr >= Bottom(c, s) && Reaches(c, after, s, b.End())
    {
      if s != beg {
        assert after[s] == f.regions[s];
        assert Reaches(c, f.regions, s, b.End());
      }
    }
  }

  lemma MakeHumongousOk(c: Config, j: nat, r: Region, first: bool, n: nat)
    requires RegionOk(c, j, r, {}) && (r.IsEmpty() || r.kind.Trash?) && n > 0
    ensures RegionOk(c, j, MakeHumongous(c, j, r, first, n), {})
  {
  }

  lemma VacantTails(c: Config, j: nat, r: Region, tails: set<Tile>)
    requires RegionOk(c, j, r, tails) && (r.IsEmpty() || r.kind.Trash?)
    ensures tails == {}
  {
  }

  lemma TakeRunBits(c: Config, f: FreeSet, beg: nat, num: nat, n: nat)
    requires BitsOk(c, f) && FreeRun(f, beg, num)
    ensures BitsOk(c, TakeRun(c, f, beg, num, n))
  {
    hide MakeHumongous, Capacity;
    var g := f.(regions := RunRegions(c, f.regions, beg, num, n), bits := ClearBits(f.bits, beg, num));
    forall k | 0 <= k < c.count && g.bits[k] ensures BitOk(c, g, k) {
      assert f.bits[k] && BitOk(c, f, k) && g.regions[k] == f.regions[k];
    }
    AdjustKeeps(c, g);
  }

  /** Taking a free run that is long enough for the object keeps the heap consistent. */
  lemma TakeRunKeeps(c: Config, f: FreeSet, tails: seq<set<Tile>>, beg: nat, num: nat, n: nat)
    requires Inv(c, f, tails) && n > 0 && FreeRun(f, beg, num) && Required(c, n) <= num
    requires Fits(c) ==> num == Required(c, n)
    ensures Inv(c, TakeRun(c, f, beg, num, n), tails)
  {
    hide Required, RegionOk, RunsOk, ReachOk, BitOk, MakeHumongous;
    RequiredPositive(c, n);
    TakeRunRuns(c, f, beg, num, n);
    TakeRunReach(c, f, beg, num, n);
    TakeRunBits(c, f, beg, num, n);
    var g := TakeRun(c, f, beg, num, n);
    forall j | 0 <= j < c.count ensures RegionOk(c, j, g.regions[j], tails[j]) {
      assert RegionOk(c, j, f.regions[j], tails[j]);
      if beg <= j < beg + num {
        assert RunFree(f, j);
        VacantTails(c, j, f.regions[j], tails[j]);
        MakeHumongousOk(c, j, f.regions[j], j == beg, n);
      }
    }
  }

  // ---------------------------------------------------------------------------------------------
  // Trashing a run
  // ---------------------------------------------------------------------------------------------

  function Trashed(r: Region): Region { r.(kind := Trash, objects := {}, toSweep := false) }

  /** `trash_humongous_region_at`, with the span read from the object's header. */
  function TrashRun(c: Config, regions: seq<Region>, s: nat): seq<Region>
    requires c.size > 0 && s < |regions|
  {
    seq(|regions|, j requires 0 <= j < |regions| =>
      if s <= j < s + Span(c, regions, s) then Trashed(regions[j]) else regions[j])
  }

  lemma TrashRunRuns(c: Config, regions: seq<Region>, s: nat)
    requires c.size > 0 && RunsOk(c, regions) && s < |regions| && regions[s].kind.HumongousStart?
    ensures RunsOk(c, TrashRun(c, regions, s))
  {
    hide Span;
    var after := TrashRun(c, regions, s);
    forall t: nat, j: nat | Owns(c, after, t, j) ensures after[j].kind.HumongousCont? {
      assert after[t] == regions[t];
      SpanSame(c, regions, after, t);
      assert Owns(c, regions, t, j);
      if s <= j < s + Span(c, regions, s) {
        assert j != s;
        assert Owns(c, regions, s, j);
        OwnerUnique(c, regions, s, t, j);
      }
    }
    forall j: nat | Fits(c) && j < |after| && after[j].kind.HumongousCont?
      ensures exists t: nat :: Owns(c, after, t, j)
    {
      var t: nat :| Owns(c, regions, t, j);
      assert !Owns(c, regions, s, t);
      assert after[t] == regions[t];
      SpanSame(c, regions, after, t);
      assert Owns(c, after, t, j);
    }
    forall t: nat | t < |after| && after[t].kind.HumongousStart? ensures t + Span(c, after, t) <= |after| {
      SpanSame(c, regions, after, t);
    }
  }

  lemma SpanSame(c: Config, regions: seq<Region>, after: seq<Region>, t: nat)
    requires c.size > 0 && t < |regions| && t < |after| && after[t] == regions[t]
    ensures Span(c, after, t) == Span(c, regions, t)
  {
  }

  /** No run that is left reaches into the trashed one. */
  lemma TrashRunReaches(c: Config, regions: seq<Region>, s: nat, i: nat, end: nat)
    requires c.size > 0 && RunsOk(c, regions) && s < |regions| && regions[s].kind.HumongousStart?
    requires i < |regions| && i != s && regions[i].kind.HumongousStart? && Reaches(c, regions, i, end)
    ensures Reaches(c, TrashRun(c, regions, s), i, end)
  {
    hide Bottom, Span;
    var after := TrashRun(c, regions, s);
    assert !Owns(c, regions, s, i);
    forall j: nat | i < j && Bottom(c, j) < end ensures j < |after| && after[j].kind.HumongousCont? {
      assert j < |regions| && regions[j].kind.HumongousCont?;
      if s <= j < s + Span(c, regions, s) {
        BottomMonotone(c, s, j);
      }
    }
  }

  lemma TrashRunReach(c: Config, regions: seq<Region>, s: nat)
    requires c.size > 0 && RunsOk(c, regions) && ReachOk(c, regions)
    requires s < |regions| && regions[s].kind.HumongousStart?
    ensures s < s + Span(c, regions, s) ==> ReachOk(c, TrashRun(c, regions, s))
  {
    hide Bottom, Span;
    var after := TrashRun(c, regions, s);
    if s < s + Span(c, regions, s) {
      forall i: nat, b | i < |after| && after[i].kind.HumongousStart? && b in after[i].objects
        ensures b.addr >= Bottom(c, i) && Reaches(c, after, i, b.End())
      {
        assert i != s && after[i] == regions[i];
        TrashRunReaches(c, regions, s, i, b.End());
      }
    }
  }

  lemma TrashedOk(c: Config, j: nat, r: Region)
    requires RegionOk(c, j, r, {}) && IsHumongous(r)
    ensures RegionOk(c, j, Trashed(r), {})
  {
  }

  lemma HumongousTails(c: Config, j: nat, r: Region, tails: set<Tile>)
    requires RegionOk(c, j, r, tails) && (r.kind.HumongousCont? || (r.kind.HumongousStart? && r.toSweep))
    ensures tails == {}
  {
  }

  lemma TrashRunKeeps(c: Config, f: FreeSet, tails: seq<set<Tile>>, s: nat)
    requires Inv(c, f, tails) && s < c.count && f.regions[s].kind.HumongousStart? && f.regions[s].toSweep
    requires Span(c, f.regions, s) > 0
    ensures Inv(c, f.(regions := TrashRun(c, f.regions, s)), tails)
  {
    TrashRunRuns(c, f.regions, s);
    TrashRunReach(c, f.regions, s);
    hide RegionOk, Span, ReachOk;
    var g := f.(regions := TrashRun(c, f.regions, s));
    forall j | 0 <= j < c.count ensures RegionOk(c, j, g.regions[j], tails[j]) {
      assert RegionOk(c, j, f.regions[j], tails[j]);
      if s <= j < s + Span(c, f.regions, s) {
        assert j == s || Owns(c, f.regions, s, j);
        HumongousTails(c, j, f.regions[j], tails[j]);
        TrashedOk(c, j, f.regions[j]);
      }
    }
    forall k | 0 <= k < c.count && g.bits[k] ensures BitOk(c, g, k) {
      assert BitOk(c, f, k);
      assert !Owns(c, f.regions, s, k);
    }
  }

  // ---------------------------------------------------------------------------------------------
  // Walking back to the start of a run
  // ---------------------------------------------------------------------------------------------

  /** Between the start of a run and any of its regions there are only continuations. */
  lemma OnlyContinuations(c: Config, regions: seq<Region>, s: nat, j: nat, k: nat)
    requires c.size > 0 && RunsOk(c, regions) && Owns(c, regions, s, j) && s < k <= j
    ensures regions[k].kind.HumongousCont?
  {
    assert Owns(c, regions, s, k);
  }

  /** `get_humongous_start`. */
  method GetHumongousStart(c: Config, regions: seq<Region>, j: nat) returns (s: nat)
    requires c.size > 0 && RunsOk(c, regions) && j < |regions|
    requires regions[j].kind.HumongousStart? || exists s: nat :: Owns(c, regions, s, j)
    ensures s <= j && regions[s].kind.HumongousStart? && (s == j || Owns(c, regions, s, j))
  {
    ghost var owner: nat := j;
    if !regions[j].kind.HumongousStart? {
      owner :| Owns(c, regions, owner, j);
    }
    s := j;
    while !regions[s].kind.HumongousStart?
      invariant owner <= s <= j
      decreases s
    {
      s := s - 1;
    }
    if owner < s {
      OnlyContinuations(c, regions, owner, j, s);
    }
  }

  // ---------------------------------------------------------------------------------------------
  // Passes of the collector
  // ---------------------------------------------------------------------------------------------

  predicate Sweepable(r: Region) { r.kind.Regular? || r.kind.HumongousStart? }

  /** `PrepareUnsweptRegions` over every region. */
  function Prepare(f: FreeSet): FreeSet
    requires |f.regions| == |f.bits|
  {
    f.(regions := seq(|f.regions|, j requires 0 <= j < |f.regions| =>
         if Sweepable(f.regions[j]) then f.regions[j].(toSweep := true) else f.regions[j]),
       bits := seq(|f.bits|, j requires 0 <= j < |f.bits| => f.bits[j] && !Sweepable(f.regions[j])))
  }

  lemma ToSweepRuns(c: Config, regions: seq<Region>, after: seq<Region>)
    requires c.size > 0 && RunsOk(c, regions) && |after| == |regions|
    requires forall j :: 0 <= j < |regions| ==>
               after[j].kind == regions[j].kind && after[j].headers == regions[j].headers
    ensures RunsOk(c, after)
  {
    assert forall s :: 0 <= s < |regions| ==> Span(c, after, s) == Span(c, regions, s);
    forall s: nat, j: nat | Owns(c, after, s, j) ensures after[j].kind.HumongousCont? {
      assert Owns(c, regions, s, j);
    }
    forall j: nat | Fits(c) && j < |after| && after[j].kind.HumongousCont?
      ensures exists s: nat :: Owns(c, after, s, j)
    {
      var s: nat :| Owns(c, regions, s, j);
      assert Owns(c, after, s, j);
    }
  }

  lemma SetToSweep(c: Config, j: nat, r: Region, b: bool)
    requires RegionOk(c, j, r, {}) && (b ==> Sweepable(r))
    ensures RegionOk(c, j, r.(toSweep := b), {})
  {
    hide Ok, Tiles;
    var q := r.(toSweep := b);
    assert Layout(q, {}) == Layout(r, {});
  }

  /**
   * With every buffer retired, all Regular and humongous regions are put up for sweeping and closed to the allocator.
   */
  lemma PrepareKeeps(c: Config, f: FreeSet, tails: seq<set<Tile>>)
    requires Inv(c, f, tails) && forall j :: 0 <= j < |tails| ==> tails[j] == {}
    ensures Inv(c, Prepare(f), tails)
  {
    hide RegionOk, RunsOk, Capacity;
    var g := Prepare(f);
    ToSweepRuns(c, f.regions, g.regions);
    forall j | 0 <= j < c.count ensures RegionOk(c, j, g.regions[j], tails[j]) {
      assert RegionOk(c, j, f.regions[j], tails[j]);
      if Sweepable(f.regions[j]) {
        SetToSweep(c, j, f.regions[j], true);
      }
    }
    forall k | 0 <= k < c.count && g.bits[k] ensures BitOk(c, g, k) {
      assert BitOk(c, f, k);
    }
  }

  /**
   * Exactly the Regular regions and the humongous starts are put up for sweeping, the allocator keeps exactly the empty
   * and trash regions it had, and no object goes.
   */
  lemma PrepareIsExact(c: Config, f: FreeSet, tails: seq<set<Tile>>, j: nat)
    requires Inv(c, f, tails) && j < c.count
    ensures var g, r := Prepare(f), f.regions[j];
            |g.regions| == |g.bits| == c.count &&
            (g.regions[j].toSweep <==> r.kind.Regular? || r.kind.HumongousStart?) &&
            (g.bits[j] <==> f.bits[j] && (r.IsEmpty() || r.kind.Trash?)) &&
            g.regions[j].objects == r.objects && g.regions[j].kind == r.kind
  {
    hide RunsOk, ReachOk, Capacity;
    assert RegionOk(c, j, f.regions[j], tails[j]);
    assert f.bits[j] ==> BitOk(c, f, j);
  }

  predicate MayAllocate(c: Config, r: Region) {
    (r.kind.Regular? || r.IsEmpty() || r.kind.Trash?) && Capacity(c, r) != 0
  }

  /** `RegionFreeSet::rebuild`. */
  function Rebuild(c: Config, f: FreeSet): FreeSet
    requires |f.regions| == c.count > 0
  {
    Adjust(FreeSet(f.regions, FreshBits(c, f.regions), 0, c.count - 1))
  }

  function FreshBits(c: Config, regions: seq<Region>): seq<bool> {
    seq(|regions|, j requires 0 <= j < |regions| => MayAllocate(c, regions[j]))
  }

  /** Every free list in use is well formed. */
  ghost predicate ListsOk(regions: seq<Region>) {
    forall j :: 0 <= j < |regions| && regions[j].kind.Regular? ==> Ok(regions[j].lists)
  }

  lemma InvLists(c: Config, f: FreeSet, tails: seq<set<Tile>>)
    requires Inv(c, f, tails)
    ensures ListsOk(f.regions) && c.size > 0 && |f.regions| == c.count
  {
    hide Ok, Tiles, RunsOk, ReachOk;
    assert forall j :: 0 <= j < |f.regions| ==> RegionOk(c, j, f.regions[j], tails[j]);
  }

  /**
   * After a rebuild the set holds exactly the empty regions, the trash regions and the Regular ones with a free block,
   * and the bounds are tight.
   */
  lemma RebuildIsExact(c: Config, f: FreeSet, j: nat)
    requires |f.regions| == c.count && j < c.count && c.size > 0 && ListsOk(f.regions)
    ensures var g := Rebuild(c, f);
            |g.bits| == c.count && g.regions == f.regions &&
            (g.bits[j] <==> var r := f.regions[j];
                            r.IsEmpty() || r.kind.Trash? || (r.kind.Regular? && Blocks(r.lists) != {})) &&
            (g.bits[j] ==> g.left <= j <= g.right < c.count && g.bits[g.left] && g.bits[g.right]) &&
            (g.left == c.count <==> forall k :: 0 <= k < c.count ==> !g.bits[k])
  {
    if f.regions[j].kind.Regular? {
      NoBytesIff(f.regions[j].lists);
    }
    hide Ok, Blocks;
    var g := Rebuild(c, f);
    assert g.bits == FreshBits(c, f.regions);
    if g.bits[j] {
      assert g.left <= j;
      assert g.right >= j;
    }
  }

  lemma RebuildKeeps(c: Config, f: FreeSet, tails: seq<set<Tile>>)
    requires Inv(c, f, tails) && forall j :: 0 <= j < |f.regions| ==> !f.regions[j].toSweep
    ensures Inv(c, Rebuild(c, f), tails)
  {
    hide RegionOk, RunsOk, Capacity;
    var g := FreeSet(f.regions, FreshBits(c, f.regions), 0, c.count - 1);
    forall k | 0 <= k < c.count && g.bits[k] ensures BitOk(c, g, k) {
      assert MayAllocate(c, f.regions[k]);
    }
    AdjustKeeps(c, g);
  }

  /** One region done by the sweeper; `swept` is what `sweep_region` made of a Regular one. */
  ghost predicate SweepDone(c: Config, f: FreeSet, i: nat, marks: set<nat>, swept: Region, g: FreeSet)
    requires c.size > 0
  {
    i < |f.regions| && f.regions[i].toSweep &&
    var r := f.regions[i];
    match r.kind
    case Regular =>
      SweptTo(Bottom(c, i), Top(c, i), r, marks, swept) &&
      g == f.(regions := f.regions[i := if swept.objects == {} then Trashed(swept) else swept.(toSweep := false)])
    case HumongousStart =>
      g == f.(regions := if Bottom(c, i) in marks then f.regions[i := r.(toSweep := false)]
                         else TrashRun(c, f.regions, i))
    case _ => g == f.(regions := f.regions[i := r.(toSweep := false)])
  }

  lemma SweptRegionOk(c: Config, i: nat, r: Region, marks: set<nat>, swept: Region)
    requires RegionOk(c, i, r, {}) && r.kind.Regular? && SweptTo(Bottom(c, i), Top(c, i), r, marks, swept)
    ensures RegionOk(c, i, if swept.objects == {} then Trashed(swept) else swept.(toSweep := false), {})
  {
    hide Ok, Tiles;
    var q := swept.(toSweep := false);
    assert Layout(q, {}) == Layout(swept, {});
  }

  lemma SweepRegularKeeps(c: Config, f: FreeSet, tails: seq<set<Tile>>, i: nat, q: Region)
    requires Inv(c, f, tails) && i < c.count && f.regions[i].toSweep && tails[i] == {}
    requires f.regions[i].kind.Regular? && !IsHumongous(q) && RegionOk(c, i, q, {})
    ensures Inv(c, f.(regions := f.regions[i := q]), tails)
  {
    hide RegionOk, RunsOk, Capacity;
    var g := f.(regions := f.regions[i := q]);
    RunsFrame(c, f.regions, i, q);
    OneRegion(c, f, tails, g, i, q, {});
    assert tails[i := {}] == tails;
    forall k | 0 <= k < c.count && g.bits[k] ensures BitOk(c, g, k) {
      assert BitOk(c, f, k);
    }
  }

  lemma SweepHumongousKeeps(c: Config, f: FreeSet, tails: seq<set<Tile>>, i: nat)
    requires Inv(c, f, tails) && i < c.count && f.regions[i].toSweep && f.regions[i].kind.HumongousStart?
    ensures Inv(c, f.(regions := f.regions[i := f.regions[i].(toSweep := false)]), tails)
  {
    hide RunsOk, Capacity;
    var q := f.regions[i].(toSweep := false);
    var g := f.(regions := f.regions[i := q]);
    assert RegionOk(c, i, f.regions[i], tails[i]);
    HumongousTails(c, i, f.regions[i], tails[i]);
    SetToSweep(c, i, f.regions[i], false);
    hide RegionOk;
    OneRegion(c, f, tails, g, i, q, {});
    assert tails[i := {}] == tails;
    ToSweepRuns(c, f.regions, g.regions);
    forall k | 0 <= k < c.count && g.bits[k] ensures BitOk(c, g, k) {
      assert BitOk(c, f, k);
    }
  }

  lemma ToSweepMeans(c: Config, i: nat, r: Region, tails: set<Tile>)
    requires RegionOk(c, i, r, tails) && r.toSweep
    ensures tails == {} && Sweepable(r)
  {
  }

  /** Sweeping any region, with any marks, keeps the heap consistent. */
  lemma SweepKeeps(c: Config, f: FreeSet, tails: seq<set<Tile>>, i: nat, marks: set<nat>, swept: Region, g: FreeSet)
    requires Inv(c, f, tails) && SweepDone(c, f, i, marks, swept, g)
    ensures Inv(c, g, tails)
  {
    hide RegionOk, RunsOk, Capacity, SweptTo, TrashRun, BitsOk;
    assert RegionOk(c, i, f.regions[i], tails[i]);
    ToSweepMeans(c, i, f.regions[i], tails[i]);
    if f.regions[i].kind.Regular? {
      SweptRegionOk(c, i, f.regions[i], marks, swept);
      KindOfSwept(c, i, f.regions[i], marks, swept);
      SweepRegularKeeps(c, f, tails, i, g.regions[i]);
    } else if Bottom(c, i) in marks {
      SweepHumongousKeeps(c, f, tails, i);
    } else {
      SpanIsPositive(c, f.regions, i, tails[i]);
      TrashRunKeeps(c, f, tails, i);
    }
  }

  lemma SpanIsPositive(c: Config, regions: seq<Region>, i: nat, tails: set<Tile>)
    requires c.size > 0 && i < |regions| && RegionOk(c, i, regions[i], tails) && regions[i].kind.HumongousStart?
    ensures Span(c, regions, i) > 0
  {
    RequiredPositive(c, regions[i].headers[Bottom(c, i)].size);
  }

  lemma KindOfSwept(c: Config, i: nat, r: Region, marks: set<nat>, swept: Region)
    requires SweptTo(Bottom(c, i), Top(c, i), r, marks, swept)
    ensures swept.kind == r.kind
  {
  }
}

/** The byte cells of a bitmap and the set of addresses the rest of the model speaks of are two views of one thing. */
module BitmapViews {
  import opened Tiling
  import opened RegionModel
  import opened Sweeper
  import opened FreeSetModel
  import opened HeapRun
  import HeapInvariant
  import HeapSafety
  import Bitmap

  function AddressOf(offset: nat, k: nat): nat { offset + k * Bitmap.ALIGN }

  /** The addresses whose bit is set. */
  ghost function Members(offset: nat, cells: seq<bv8>): set<nat> {
    set k: nat | k < |cells| * Bitmap.CELL && Bitmap.Marked(cells, k) :: AddressOf(offset, k)
  }

  lemma MemberIff(offset: nat, cells: seq<bv8>, k: nat)
    ensures AddressOf(offset, k) in Members(offset, cells) <==> Bitmap.Marked(cells, k)
  {
    hide Bitmap.Has;
    if AddressOf(offset, k) in Members(offset, cells) {
      var m: nat :| m < |cells| * Bitmap.CELL && Bitmap.Marked(cells, m) &&
                     AddressOf(offset, m) == AddressOf(offset, k);
      assert m == k;
    }
    if Bitmap.Marked(cells, k) {
      assert k < |cells| * Bitmap.CELL;
    }
  }

  /** What `find_object_start` finds in the cells is the greatest member at or below the address. */
  lemma CellsFindFloor(offset: nat, cells: seq<bv8>, a: nat, s: nat)
    requires offset <= a && Bitmap.IsFloor(cells, (a - offset) / Bitmap.ALIGN, s)
    ensures Floor(Members(offset, cells), a) == AddressOf(offset, s)
  {
    hide Bitmap.Marked;
    MemberIff(offset, cells, s);
    forall x | x in Members(offset, cells) && x <= a ensures x <= AddressOf(offset, s) {
      var k: nat :| k < |cells| * Bitmap.CELL && Bitmap.Marked(cells, k) && AddressOf(offset, k) == x;
    }
    FloorIs(Members(offset, cells), a, AddressOf(offset, s));
  }

  /** Where the cells hold nothing at or below the address, neither does the set. */
  lemma CellsFindNothing(offset: nat, cells: seq<bv8>, a: nat)
    requires 0 < offset <= a && forall k: nat :: k <= (a - offset) / Bitmap.ALIGN ==> !Bitmap.Marked(cells, k)
    ensures Floor(Members(offset, cells), a) == 0
  {
    hide Bitmap.Marked;
    forall x | x in Members(offset, cells) ensures x > a {
      var k: nat :| k < |cells| * Bitmap.CELL && Bitmap.Marked(cells, k) && AddressOf(offset, k) == x;
    }
    FloorOfNone(Members(offset, cells), a);
  }

  lemma {:induction false} FloorOfNone(starts: set<nat>, a: nat)
    requires forall x :: x in starts ==> x > a
    ensures Floor(starts, a) == 0
  {
    if a > 0 {
      FloorOfNone(starts, a - 1);
    }
  }

  /** `is_marked_range` on the cells decides whether any member lies in the range. */
  lemma CellsAnyMarked(offset: nat, cells: seq<bv8>, lo: nat, hi: nat)
    requires offset <= lo <= hi && (lo - offset) % Bitmap.ALIGN == 0 && (hi - offset) % Bitmap.ALIGN == 0
    ensures AnyMarked(Members(offset, cells), lo, hi) <==>
            exists k: nat :: (lo - offset) / Bitmap.ALIGN <= k < (hi - offset) / Bitmap.ALIGN && Bitmap.Marked(cells, k)
  {
    hide Bitmap.Marked;
    if AnyMarked(Members(offset, cells), lo, hi) {
      var a :| lo <= a < hi && a in Members(offset, cells);
      var k: nat :| k < |cells| * Bitmap.CELL && Bitmap.Marked(cells, k) && AddressOf(offset, k) == a;
      assert (lo - offset) / Bitmap.ALIGN <= k < (hi - offset) / Bitmap.ALIGN;
    }
    if k: nat :| (lo - offset) / Bitmap.ALIGN <= k < (hi - offset) / Bitmap.ALIGN && Bitmap.Marked(cells, k) {
      MemberIff(offset, cells, k);
      assert lo <= AddressOf(offset, k) < hi;
    }
  }

  /**
   * In every reachable state, the search through the byte cells of a Regular region's bitmap leads from any address of
   * an object to the object's header.
   */
  lemma CellsFindHeader(
    c: Config, states: seq<Heap>, steps: seq<Step>, n: nat, i: nat, b: Block, a: nat, cells: seq<bv8>, s: nat)
    requires CarefulRun(c, states, steps) && n < |states| && i < c.count && i < |states[n].free.regions|
    requires states[n].free.regions[i].kind.Regular? && b in states[n].free.regions[i].objects && b.Holds(a)
    requires Members(Bottom(c, i), cells) == states[n].free.regions[i].starts
    requires Bottom(c, i) <= a && Bitmap.IsFloor(cells, (a - Bottom(c, i)) / Bitmap.ALIGN, s)
    ensures AddressOf(Bottom(c, i), s) == b.addr
  {
    hide CarefulRun, HeapInv, Floor, RegularOk, Members, Bottom;
    HeapInvariant.InvRun(c, states, steps, n);
    HeapInvariant.TableSize(c, states[n]);
    HeapSafety.TiledRegion(c, states[n], i);
    RegularResolves(Bottom(c, i), Top(c, i), states[n].free.regions[i], Tails(states[n].tlabs, i), b, a);
    CellsFindFloor(Bottom(c, i), cells, a, s);
  }
}

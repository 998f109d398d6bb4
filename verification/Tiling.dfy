/** Stretches of heap memory, and what it means for a set of them to tile an interval. */
module Tiling {

  /** Objects and free entries are laid out in granules of 16 bytes. */
  const GRANULE: nat := 16

  datatype Block = Block(addr: nat, size: nat) {
    function End(): nat { addr + size }
    predicate Holds(a: nat) { addr <= a < addr + size }
    predicate Granular() { addr > 0 && size > 0 && size % GRANULE == 0 }
  }

  predicate Apart(b: Block, c: Block) {
    b.End() <= c.addr || c.End() <= b.addr
  }

  /** Who a stretch belongs to: an allocated object, the free list, or the unused end of a thread's buffer. */
  datatype Owner = Object | Free | Tail(thread: nat)

  datatype Tile = Tile(block: Block, owner: Owner)

  ghost predicate Inside(lo: nat, hi: nat, tiles: set<Tile>) {
    forall t :: t in tiles ==> t.block.size > 0 && lo <= t.block.addr && t.block.End() <= hi
  }

  ghost predicate PairwiseApart(tiles: set<Tile>) {
    forall t, u :: t in tiles && u in tiles && t != u ==> Apart(t.block, u.block)
  }

  ghost predicate Covered(tiles: set<Tile>, a: nat) {
    exists t :: t in tiles && t.block.Holds(a)
  }

  /** Every byte of [lo, hi) belongs to exactly one tile, and no tile leaves the interval. */
  ghost predicate Tiles(lo: nat, hi: nat, tiles: set<Tile>) {
    Inside(lo, hi, tiles) && PairwiseApart(tiles) &&
    forall a :: lo <= a < hi ==> Covered(tiles, a)
  }

  /** Handing the same stretch to another owner. */
  lemma RetagTiles(lo: nat, hi: nat, tiles: set<Tile>, t: Tile, u: Tile)
    requires Tiles(lo, hi, tiles) && t in tiles && u.block == t.block
    ensures Tiles(lo, hi, tiles - {t} + {u})
  {
    var after := tiles - {t} + {u};
    forall a | lo <= a < hi ensures Covered(after, a) {
      assert Covered(tiles, a);
      var x :| x in tiles && x.block.Holds(a);
      assert (if x == t then u else x) in after;
    }
  }

  /** Cutting a tile in two. */
  lemma SplitTiles(lo: nat, hi: nat, tiles: set<Tile>, t: Tile, left: Tile, right: Tile)
    requires Tiles(lo, hi, tiles) && t in tiles
    requires left.block.size > 0 && right.block.size > 0
    requires left.block.addr == t.block.addr && left.block.End() == right.block.addr
    requires right.block.End() == t.block.End()
    ensures Tiles(lo, hi, tiles - {t} + {left, right})
  {
    var after := tiles - {t} + {left, right};
    forall a | lo <= a < hi ensures Covered(after, a) {
      assert Covered(tiles, a);
      var x :| x in tiles && x.block.Holds(a);
      var y := if x != t then x else if a < right.block.addr then left else right;
      assert y in after && y.block.Holds(a);
    }
  }

  /** Where one tile ends the next one begins. */
  lemma NextTile(lo: nat, hi: nat, tiles: set<Tile>, a: nat) returns (next: Tile)
    requires Tiles(lo, hi, tiles) && lo <= a < hi
    requires a == lo || exists t :: t in tiles && t.block.End() == a
    ensures next in tiles && next.block.addr == a
  {
    assert Covered(tiles, a);
    next :| next in tiles && next.block.Holds(a);
    if a != lo {
      var t :| t in tiles && t.block.End() == a;
      assert t == next || Apart(t.block, next.block);
    }
  }
}

/** The heap bitmap: one bit per granule in byte cells, seen as a set of aligned addresses. */
module Bitmap {

  const ALIGN: nat := 16
  const CELL: nat := 8

  // ---------------------------------------------------------------------------------------------
  // Cells
  // ---------------------------------------------------------------------------------------------

  function Mask(b: nat): bv8
    requires b < CELL
  {
    match b
    case 0 => 1
    case 1 => 2
    case 2 => 4
    case 3 => 8
    case 4 => 16
    case 5 => 32
    case 6 => 64
    case _ => 128
  }

  /** The bits below b: (1 << b) - 1. */
  function Below(b: nat): bv8
    requires b <= CELL
  {
    match b
    case 0 => 0
    case 1 => 1
    case 2 => 3
    case 3 => 7
    case 4 => 15
    case 5 => 31
    case 6 => 63
    case 7 => 127
    case _ => 255
  }

  predicate Has(x: bv8, b: nat)
    requires b < CELL
  {
    x & Mask(b) != 0
  }

  lemma HasSet(x: bv8, b: nat, j: nat)
    requires b < CELL && j < CELL
    ensures Has(x | Mask(b), j) <==> j == b || Has(x, j)
  {
  }

  lemma HasCleared(x: bv8, b: nat, j: nat)
    requires b < CELL && j < CELL
    ensures Has(x & !Mask(b), j) <==> j != b && Has(x, j)
  {
  }

  /** Flipping a bit that is set clears it. */
  lemma FlipClears(x: bv8, b: nat)
    requires b < CELL && Has(x, b)
    ensures x ^ Mask(b) == x & !Mask(b)
  {
  }

  lemma HasBelow(x: bv8, b: nat, j: nat)
    requires b <= CELL && j < CELL
    ensures Has(x & Below(b), j) <==> j < b && Has(x, j)
  {
  }

  lemma HasAbove(x: bv8, b: nat, j: nat)
    requires b <= CELL && j < CELL
    ensures Has(x & !Below(b), j) <==> j >= b && Has(x, j)
  {
  }

  lemma SetTwice(x: bv8, b: nat)
    requires b < CELL
    ensures x | Mask(b) == x <==> Has(x, b)
  {
  }

  /** 7 - leading_zeros. */
  function Highest(x: bv8): (b: nat)
    requires x != 0
    ensures b < CELL && Has(x, b) && forall j :: b < j < CELL ==> !Has(x, j)
  {
    if Has(x, 7) then 7 else if Has(x, 6) then 6 else if Has(x, 5) then 5 else if Has(x, 4) then 4
    else if Has(x, 3) then 3 else if Has(x, 2) then 2 else if Has(x, 1) then 1 else 0
  }

  /** trailing_zeros. */
  function Lowest(x: bv8): (b: nat)
    requires x != 0
    ensures b < CELL && Has(x, b) && forall j :: 0 <= j < b ==> !Has(x, j)
  {
    if Has(x, 0) then 0 else if Has(x, 1) then 1 else if Has(x, 2) then 2 else if Has(x, 3) then 3
    else if Has(x, 4) then 4 else if Has(x, 5) then 5 else if Has(x, 6) then 6 else 7
  }

  lemma ZeroHasNone(j: nat)
    requires j < CELL
    ensures !Has(0, j)
  {
  }

  // ---------------------------------------------------------------------------------------------
  // Granule numbers
  // ---------------------------------------------------------------------------------------------

  /** Granule k has its bit set. */
  predicate Marked(cells: seq<bv8>, k: nat) {
    k / CELL < |cells| && Has(cells[k / CELL], k % CELL)
  }

  /** The set bits of [lo, hi), in ascending order. */
  function MarkedIn(cells: seq<bv8>, lo: nat, hi: nat): seq<nat>
    decreases hi - lo
  {
    if lo >= hi then [] else (if Marked(cells, lo) then [lo] else []) + MarkedIn(cells, lo + 1, hi)
  }

  lemma {:induction false} MarkedInHas(cells: seq<bv8>, lo: nat, hi: nat, k: nat)
    ensures k in MarkedIn(cells, lo, hi) <==> lo <= k < hi && Marked(cells, k)
    decreases hi - lo
  {
    hide Marked;
    if lo < hi {
      MarkedInHas(cells, lo + 1, hi, k);
    }
  }

  lemma {:induction false} MarkedInAscends(cells: seq<bv8>, lo: nat, hi: nat, i: nat, j: nat)
    requires i < j < |MarkedIn(cells, lo, hi)|
    ensures lo <= MarkedIn(cells, lo, hi)[i] < MarkedIn(cells, lo, hi)[j]
    decreases hi - lo
  {
    hide Marked;
    var rest := MarkedIn(cells, lo + 1, hi);
    if !Marked(cells, lo) {
      MarkedInAscends(cells, lo + 1, hi, i, j);
    } else if i > 0 {
      MarkedInAscends(cells, lo + 1, hi, i - 1, j - 1);
    } else {
      assert rest[j - 1] in rest;
      MarkedInHas(cells, lo + 1, hi, rest[j - 1]);
    }
  }

  /** A visit of a range reaches exactly its set granules, each once, in ascending order. */
  lemma MarkedInExact(cells: seq<bv8>, lo: nat, hi: nat)
    ensures forall k: nat :: k in MarkedIn(cells, lo, hi) <==> lo <= k < hi && Marked(cells, k)
    ensures forall i, j :: 0 <= i < j < |MarkedIn(cells, lo, hi)| ==>
              MarkedIn(cells, lo, hi)[i] < MarkedIn(cells, lo, hi)[j]
  {
    hide Marked, MarkedIn;
    forall k: nat ensures k in MarkedIn(cells, lo, hi) <==> lo <= k < hi && Marked(cells, k) {
      MarkedInHas(cells, lo, hi, k);
    }
    forall i, j | 0 <= i < j < |MarkedIn(cells, lo, hi)|
      ensures MarkedIn(cells, lo, hi)[i] < MarkedIn(cells, lo, hi)[j]
    {
      MarkedInAscends(cells, lo, hi, i, j);
    }
  }

  lemma {:induction false} MarkedInSplit(cells: seq<bv8>, lo: nat, mid: nat, hi: nat)
    requires lo <= mid <= hi
    ensures MarkedIn(cells, lo, hi) == MarkedIn(cells, lo, mid) + MarkedIn(cells, mid, hi)
    decreases mid - lo
  {
    if lo < mid {
      MarkedInSplit(cells, lo + 1, mid, hi);
    }
  }

  lemma {:induction false} MarkedInNone(cells: seq<bv8>, lo: nat, hi: nat)
    requires forall k :: lo <= k < hi ==> !Marked(cells, k)
    ensures MarkedIn(cells, lo, hi) == []
    decreases hi - lo
  {
    if lo < hi {
      MarkedInNone(cells, lo + 1, hi);
    }
  }

  lemma CellOf(i: nat, b: nat)
    requires b < CELL
    ensures (i * CELL + b) / CELL == i && (i * CELL + b) % CELL == b
  {
  }

  /** The set bits of one cell word, shifted to where the cell lies. */
  ghost predicate Shows(w: bv8, cells: seq<bv8>, i: nat, lo: nat, hi: nat) {
    hi <= CELL && i < |cells| && forall j :: 0 <= j < CELL ==> (Has(w, j) <==> lo <= j < hi && Has(cells[i], j))
  }

  function Scale(offset: nat, ks: seq<nat>): seq<nat> {
    seq(|ks|, i requires 0 <= i < |ks| => offset + ks[i] * ALIGN)
  }

  // ---------------------------------------------------------------------------------------------
  // The bitmap
  // ---------------------------------------------------------------------------------------------

  class HeapBitmap {
    const offset: nat
    const cells: array<bv8>

    constructor (offset: nat, size: nat)
      ensures this.offset == offset && fresh(cells) && cells.Length == (size + CELL * ALIGN - 1) / (CELL * ALIGN)
      ensures forall k: nat :: !Marked(cells[..], k)
    {
      this.offset := offset;
      cells := new bv8[(size + CELL * ALIGN - 1) / (CELL * ALIGN)](_ => 0);
      new;
      forall k: nat ensures !Marked(cells[..], k) {
        ZeroHasNone(k % CELL);
      }
    }

    /** The address lies in the covered memory. */
    predicate Covers(a: nat) { offset <= a && (a - offset) / ALIGN / CELL < cells.Length }

    function Granule(a: nat): nat
      requires offset <= a
    {
      (a - offset) / ALIGN
    }

    function Address(k: nat): nat { offset + k * ALIGN }

    method CheckBit(a: nat) returns (set_: bool)
      requires Covers(a)
      ensures set_ == Marked(cells[..], Granule(a))
    {
      var k := Granule(a);
      set_ := cells[k / CELL] & Mask(k % CELL) != 0;
    }

    /** Sets a bit; true means that it was not set before. */
    method AtomicTestAndSet(a: nat) returns (won: bool)
      requires Covers(a)
      modifies cells
      ensures won == !Marked(old(cells[..]), Granule(a))
      ensures forall k: nat :: Marked(cells[..], k) <==> k == Granule(a) || Marked(old(cells[..]), k)
    {
      hide Has, Mask, Marked;
      var g := Granule(a);
      AlreadySet(cells[..], g);
      var before := cells[g / CELL];
      var after := before | Mask(g % CELL);
      if after == before {
        return false;
      }
      SetGranule(g);
      return true;
    }

    /** The exchange that sets the bit. */
    method SetGranule(g: nat)
      requires g / CELL < cells.Length
      modifies cells
      ensures forall k: nat :: Marked(cells[..], k) <==> k == g || Marked(old(cells[..]), k)
    {
      hide Has, Mask, Marked;
      var after := cells[g / CELL] | Mask(g % CELL);
      SetCell(cells[..], g, after);
      cells[g / CELL] := after;
      assert cells[..] == old(cells[..])[g / CELL := after];
    }

    method ClearBit(a: nat)
      requires Covers(a)
      modifies cells
      ensures forall k: nat :: Marked(cells[..], k) <==> k != Granule(a) && Marked(old(cells[..]), k)
    {
      hide Marked;
      ClearGranule(Granule(a));
    }

    /** The greatest set granule at or below the address, as an address; null is `false`. */
    method FindObjectStart(a: nat) returns (found: bool, start: nat)
      requires Covers(a)
      ensures found <==> exists k: nat :: k <= Granule(a) && Marked(cells[..], k)
      ensures found ==> exists s: nat :: start == Address(s) && IsFloor(cells[..], Granule(a), s)
    {
      hide Has, Mask, Below, Marked, Seen;
      var g := Granule(a);
      var i: nat := g / CELL;
      var byte := cells[i] & Below(g % CELL + 1);
      FirstByte(cells[..], i, g % CELL);
      while byte == 0 && i > 0
        invariant i < cells.Length && Seen(cells[..], i, byte, g)
        decreases i
      {
        NextByte(cells[..], i, g);
        i := i - 1;
        byte := cells[i];
      }
      if byte == 0 {
        NoByte(cells[..], g);
        return false, 0;
      }
      var s := i * CELL + Highest(byte);
      HighestIs(cells[..], i, byte, g);
      return true, Address(s);
    }

    /** A range of whole granules inside the covered memory. */
    predicate IsRange(begin: nat, end: nat) {
      offset <= begin <= end && (begin - offset) % ALIGN == 0 && (end - offset) % ALIGN == 0 &&
      Granule(end) <= cells.Length * CELL
    }

    /** Bit by bit up to a cell boundary at either end, then by whole cells. */
    method IsMarkedRange(begin: nat, end: nat) returns (any: bool)
      requires IsRange(begin, end)
      ensures any <==> exists k: nat :: Granule(begin) <= k < Granule(end) && Marked(cells[..], k)
    {
      hide Has, Mask;
      var b: nat, e: nat := Granule(begin), Granule(end);
      while b < e && b % CELL != 0
        invariant Granule(begin) <= b <= e
        invariant forall k: nat :: Granule(begin) <= k < b ==> !Marked(cells[..], k)
      {
        if Has(cells[b / CELL], b % CELL) {
          assert Marked(cells[..], b);
          return true;
        }
        b := b + 1;
      }
      while b < e && e % CELL != 0
        invariant b <= e <= Granule(end)
        invariant forall k: nat :: e <= k < Granule(end) ==> !Marked(cells[..], k)
      {
        e := e - 1;
        if Has(cells[e / CELL], e % CELL) {
          assert Marked(cells[..], e);
          return true;
        }
      }
      hide Marked;
      for i := b / CELL to e / CELL
        invariant forall k: nat :: b <= k < i * CELL ==> !Marked(cells[..], k)
      {
        CellZeroIff(cells[..], i);
        if cells[i] != 0 {
          return true;
        }
      }
      return false;
    }

    /** The same walk, clearing instead of looking. */
    method ClearRangeAtomic(begin: nat, end: nat)
      requires IsRange(begin, end)
      modifies cells
      ensures Cleared(old(cells[..]), cells[..], Granule(begin), Granule(end))
    {
      hide Cleared;
      ghost var s0 := cells[..];
      var b := ClearUp(Granule(begin), Granule(end));
      ghost var s1 := cells[..];
      var e := ClearDown(b, Granule(end));
      ghost var s2 := cells[..];
      ClearCells(b, e);
      ClearedBelow(s1, s2, cells[..], b, e, Granule(end));
      ClearedAbove(s0, s1, cells[..], Granule(begin), b, Granule(end));
    }

    /** Bit by bit up to a cell boundary. */
    method ClearUp(begin: nat, end: nat) returns (b: nat)
      requires begin <= end <= cells.Length * CELL
      modifies cells
      ensures begin <= b <= end && (b == end || b % CELL == 0) && Cleared(old(cells[..]), cells[..], begin, b)
    {
      hide Cleared, Marked;
      b := begin;
      ClearedNone(cells[..], begin);
      while b < end && b % CELL != 0
        invariant begin <= b <= end && Cleared(old(cells[..]), cells[..], begin, b)
      {
        ghost var now := cells[..];
        ClearGranule(b);
        ClearedAbove(old(cells[..]), now, cells[..], begin, b, b + 1);
        b := b + 1;
      }
    }

    /** Bit by bit down to a cell boundary. */
    method ClearDown(begin: nat, end: nat) returns (e: nat)
      requires begin <= end <= cells.Length * CELL
      modifies cells
      ensures begin <= e <= end && (begin == e || e % CELL == 0) && Cleared(old(cells[..]), cells[..], e, end)
    {
      hide Cleared, Marked;
      e := end;
      ClearedNone(cells[..], end);
      while begin < e && e % CELL != 0
        invariant begin <= e <= end && Cleared(old(cells[..]), cells[..], e, end)
      {
        ghost var now := cells[..];
        e := e - 1;
        ClearGranule(e);
        ClearedBelow(old(cells[..]), now, cells[..], e, e + 1, end);
      }
    }

    /** Whole cells. */
    method ClearCells(begin: nat, end: nat)
      requires begin <= end <= cells.Length * CELL && (begin == end || (begin % CELL == 0 && end % CELL == 0))
      modifies cells
      ensures Cleared(old(cells[..]), cells[..], begin, end)
    {
      hide Cleared, Marked;
      ClearedNone(cells[..], begin);
      if begin == end {
        return;
      }
      ghost var at := begin;
      for i := begin / CELL to end / CELL
        invariant at == i * CELL && begin <= at && Cleared(old(cells[..]), cells[..], begin, at)
      {
        ghost var now := cells[..];
        ZeroCell(now, i);
        cells[i] := 0;
        assert cells[..] == now[i := 0];
        ClearedAbove(old(cells[..]), now, cells[..], begin, at, at + CELL);
        at := at + CELL;
      }
    }

    method ClearGranule(g: nat)
      requires g / CELL < cells.Length
      modifies cells
      ensures Cleared(old(cells[..]), cells[..], g, g + 1)
    {
      hide Has, Mask, Cleared, Marked;
      var after := cells[g / CELL] & !Mask(g % CELL);
      ClearCell(cells[..], g, after);
      cells[g / CELL] := after;
      assert cells[..] == old(cells[..])[g / CELL := after];
    }

    /** The inner loop: the set bits of one word, lowest first. */
    method VisitWord(word: bv8, base: nat) returns (visited: seq<nat>)
      ensures visited == Bits(word, base, 0)
    {
      hide Has, Mask, Bits;
      visited := [];
      var w := word;
      BitsOfZero(base, 0);
      while w != 0
        invariant visited + Bits(w, base, 0) == Bits(word, base, 0)
        decreases w
      {
        LowestFirst(w, base);
        visited := visited + [base + Lowest(w)];
        w := w ^ Mask(Lowest(w));
      }
    }

    /** Whole cells, after a left edge that has been visited already. */
    method VisitCells(lo: nat, first: nat, last: nat, edge: seq<nat>) returns (visited: seq<nat>)
      requires lo <= (first + 1) * CELL && first < last <= cells.Length
      requires edge == MarkedIn(cells[..], lo, (first + 1) * CELL)
      ensures visited == MarkedIn(cells[..], lo, last * CELL)
    {
      hide Has, Mask, Marked, Shows, Bits, MarkedIn;
      visited := edge;
      for i := first + 1 to last
        invariant visited == MarkedIn(cells[..], lo, i * CELL)
      {
        ShowsAll(cells[..], i);
        ShowsBits(cells[i], cells[..], i, 0, CELL);
        var more := VisitWord(cells[i], i * CELL);
        MarkedInSplit(cells[..], lo, i * CELL, (i + 1) * CELL);
        visited := visited + more;
      }
    }

    /** The cell the range ends in, when the range begins before it. */
    method VisitRightEdge(last: nat, bit: nat) returns (visited: seq<nat>)
      requires bit < CELL && last <= cells.Length && (bit > 0 ==> last < cells.Length)
      ensures visited == MarkedIn(cells[..], last * CELL, last * CELL + bit)
    {
      hide Has, Mask, Marked, Shows, Bits, Below;
      if bit == 0 {
        return [];
      }
      var right := cells[last] & Below(bit);
      ShowsBelow(cells[..], last, cells[last], 0, bit);
      ShowsBits(right, cells[..], last, 0, bit);
      visited := VisitWord(right, last * CELL);
    }

    /** The cell the range begins in, from bit b on. */
    method VisitLeftEdge(first: nat, b: nat) returns (visited: seq<nat>)
      requires b < CELL && first < cells.Length
      ensures visited == MarkedIn(cells[..], first * CELL + b, (first + 1) * CELL)
    {
      hide Has, Mask, Marked, Shows, Bits, Below, MarkedIn;
      var left := cells[first] & !Below(b);
      ShowsAbove(cells[..], first, b);
      ShowsBits(left, cells[..], first, b, CELL);
      visited := VisitWord(left, first * CELL);
    }

    /** A range inside one cell: both edges cut from the same word. */
    method VisitWithin(cell: nat, b: nat, e: nat) returns (visited: seq<nat>)
      requires b < CELL && e < CELL && cell < cells.Length
      ensures visited == MarkedIn(cells[..], cell * CELL + b, cell * CELL + e)
    {
      hide Has, Mask, Marked, Shows, Bits, Below, MarkedIn;
      var left := cells[cell] & !Below(b);
      ShowsAbove(cells[..], cell, b);
      var right := left & Below(e);
      ShowsBelow(cells[..], cell, left, b, e);
      ShowsBits(right, cells[..], cell, b, e);
      visited := VisitWord(right, cell * CELL);
    }

    /** Left edge, whole cells, right edge, for a range given as cell and bit at either end. */
    method VisitPairs(first: nat, b: nat, last: nat, e: nat) returns (visited: seq<nat>)
      requires b < CELL && e < CELL && first < cells.Length
      requires first * CELL + b <= last * CELL + e <= cells.Length * CELL
      ensures visited == MarkedIn(cells[..], first * CELL + b, last * CELL + e)
    {
      hide MarkedIn;
      if first < last {
        var edge := VisitLeftEdge(first, b);
        var middle := VisitCells(first * CELL + b, first, last, edge);
        var rest := VisitRightEdge(last, e);
        MarkedInSplit(cells[..], first * CELL + b, last * CELL, last * CELL + e);
        visited := middle + rest;
      } else {
        visited := VisitWithin(first, b, e);
      }
    }

    /** The addresses handed to the visitor, in order. */
    method VisitMarkedRange(begin: nat, end: nat) returns (visited: seq<nat>)
      requires IsRange(begin, end) && Covers(begin)
      ensures visited == Scale(offset, MarkedIn(cells[..], Granule(begin), Granule(end)))
    {
      hide MarkedIn, Scale;
      var lo, hi := Granule(begin), Granule(end);
      Pairs(lo);
      Pairs(hi);
      var granules := VisitPairs(lo / CELL, lo % CELL, hi / CELL, hi % CELL);
      visited := Scale(offset, granules);
    }
  }

  lemma Pairs(k: nat)
    ensures k == k / CELL * CELL + k % CELL
  {
  }

  lemma MarkedAt(cells: seq<bv8>, i: nat, j: nat)
    requires j < CELL
    ensures Marked(cells, i * CELL + j) <==> i < |cells| && Has(cells[i], j)
  {
    hide Has;
    CellOf(i, j);
  }

  lemma CellZeroIff(cells: seq<bv8>, i: nat)
    requires i < |cells|
    ensures cells[i] != 0 ==> Marked(cells, i * CELL + Lowest(cells[i]))
    ensures cells[i] == 0 ==> forall k: nat :: i * CELL <= k < (i + 1) * CELL ==> !Marked(cells, k)
  {
    hide Has;
    if cells[i] != 0 {
      CellOf(i, Lowest(cells[i]));
    } else {
      forall k: nat | i * CELL <= k < (i + 1) * CELL ensures !Marked(cells, k) {
        ZeroHasNone(k % CELL);
      }
    }
  }

  lemma ZeroCell(cells: seq<bv8>, i: nat)
    requires i < |cells|
    ensures Cleared(cells, cells[i := 0], i * CELL, (i + 1) * CELL)
  {
    hide Has;
    forall k: nat ensures Marked(cells[i := 0], k) <==> Marked(cells, k) && !(i * CELL <= k < (i + 1) * CELL) {
      ZeroHasNone(k % CELL);
    }
  }

  function Bits(w: bv8, base: nat, j: nat): seq<nat>
    decreases CELL - j
  {
    if j >= CELL then [] else (if Has(w, j) then [base + j] else []) + Bits(w, base, j + 1)
  }

  lemma {:induction false} BitsOfZero(base: nat, j: nat)
    ensures Bits(0, base, j) == []
    decreases CELL - j
  {
    hide Has;
    if j < CELL {
      ZeroHasNone(j);
      BitsOfZero(base, j + 1);
    }
  }

  lemma {:induction false} BitsAgree(w: bv8, v: bv8, base: nat, j: nat)
    requires forall x :: j <= x < CELL ==> Has(w, x) == Has(v, x)
    ensures Bits(w, base, j) == Bits(v, base, j)
    decreases CELL - j
  {
    hide Has;
    if j < CELL {
      BitsAgree(w, v, base, j + 1);
    }
  }

  lemma {:induction false} BitsSkip(w: bv8, base: nat, j: nat, l: nat)
    requires j <= l <= CELL && forall x :: j <= x < l ==> !Has(w, x)
    ensures Bits(w, base, j) == Bits(w, base, l)
    decreases l - j
  {
    hide Has;
    if j < l {
      BitsSkip(w, base, j + 1, l);
    }
  }

  lemma LowestFirst(w: bv8, base: nat)
    requires w != 0
    ensures Bits(w, base, 0) == [base + Lowest(w)] + Bits(w ^ Mask(Lowest(w)), base, 0)
    ensures w ^ Mask(Lowest(w)) < w
  {
    hide Has, Mask;
    var l := Lowest(w);
    FlipClears(w, l);
    FlipSmaller(w, l);
    var v := w ^ Mask(l);
    forall x | 0 <= x < CELL ensures Has(v, x) <==> x != l && Has(w, x) {
      HasCleared(w, l, x);
    }
    BitsSkip(w, base, 0, l);
    BitsSkip(v, base, 0, l + 1);
    BitsAgree(w, v, base, l + 1);
  }

  lemma FlipSmaller(x: bv8, b: nat)
    requires b < CELL && Has(x, b)
    ensures x ^ Mask(b) < x
  {
  }

  lemma ShowsAbove(cells: seq<bv8>, i: nat, b: nat)
    requires i < |cells| && b < CELL
    ensures Shows(cells[i] & !Below(b), cells, i, b, CELL)
  {
    hide Has, Below;
    forall j | 0 <= j < CELL {
      HasAbove(cells[i], b, j);
    }
  }

  lemma ShowsAll(cells: seq<bv8>, i: nat)
    requires i < |cells|
    ensures Shows(cells[i], cells, i, 0, CELL)
  {
  }

  lemma ShowsBelow(cells: seq<bv8>, i: nat, w: bv8, lo: nat, b: nat)
    requires i < |cells| && b < CELL && (Shows(w, cells, i, lo, CELL) || (w == cells[i] && lo == 0))
    ensures Shows(w & Below(b), cells, i, lo, b)
  {
    hide Has, Below;
    forall j | 0 <= j < CELL {
      HasBelow(w, b, j);
    }
  }

  lemma ShowsAt(w: bv8, cells: seq<bv8>, i: nat, lo: nat, hi: nat, j: nat)
    requires Shows(w, cells, i, lo, hi) && lo <= j < hi
    ensures j < CELL && i < |cells| && (Has(w, j) <==> Has(cells[i], j))
  {
    hide Has;
  }

  lemma NoneAbove(w: bv8, cells: seq<bv8>, i: nat, lo: nat, hi: nat)
    requires Shows(w, cells, i, lo, hi)
    ensures hi <= CELL && Bits(w, i * CELL, hi) == []
  {
    hide Has;
    BitsSkip(w, i * CELL, hi, CELL);
  }

  lemma {:induction false} BitsAreMarked(w: bv8, cells: seq<bv8>, i: nat, lo: nat, hi: nat, j: nat)
    requires Shows(w, cells, i, lo, hi) && lo <= j <= hi
    ensures Bits(w, i * CELL, j) == MarkedIn(cells, i * CELL + j, i * CELL + hi)
    decreases hi - j
  {
    hide Has, Marked, Shows;
    if j < hi {
      ShowsAt(w, cells, i, lo, hi, j);
      MarkedAt(cells, i, j);
      BitsAreMarked(w, cells, i, lo, hi, j + 1);
    } else {
      NoneAbove(w, cells, i, lo, hi);
    }
  }

  lemma ShowsBits(w: bv8, cells: seq<bv8>, i: nat, lo: nat, hi: nat)
    requires Shows(w, cells, i, lo, hi) && lo <= CELL
    ensures Bits(w, i * CELL, 0) == MarkedIn(cells, i * CELL + lo, i * CELL + hi)
  {
    hide Has;
    if lo <= hi {
      BitsSkip(w, i * CELL, 0, lo);
      BitsAreMarked(w, cells, i, lo, hi, lo);
    } else {
      BitsSkip(w, i * CELL, 0, CELL);
    }
  }

  lemma SetCell(cells: seq<bv8>, g: nat, cell: bv8)
    requires g / CELL < |cells| && cell == cells[g / CELL] | Mask(g % CELL)
    ensures forall k: nat :: Marked(cells[g / CELL := cell], k) <==> k == g || Marked(cells, k)
  {
    hide Has, Mask;
    forall k: nat ensures Marked(cells[g / CELL := cell], k) <==> k == g || Marked(cells, k) {
      HasSet(cells[g / CELL], g % CELL, k % CELL);
    }
  }

  lemma AlreadySet(cells: seq<bv8>, g: nat)
    requires g / CELL < |cells|
    ensures cells[g / CELL] | Mask(g % CELL) == cells[g / CELL] <==> Marked(cells, g)
  {
    hide Has, Mask;
    SetTwice(cells[g / CELL], g % CELL);
  }

  /** Exactly the granules of [lo, hi) have been cleared. */
  ghost predicate Cleared(before: seq<bv8>, after: seq<bv8>, lo: nat, hi: nat) {
    forall k: nat :: Marked(after, k) <==> Marked(before, k) && !(lo <= k < hi)
  }

  lemma ClearedNone(cells: seq<bv8>, lo: nat)
    ensures Cleared(cells, cells, lo, lo)
  {
  }

  /** Clearing a range and then the one behind it. */
  lemma ClearedAbove(s: seq<bv8>, t: seq<bv8>, u: seq<bv8>, lo: nat, mid: nat, hi: nat)
    requires Cleared(s, t, lo, mid) && Cleared(t, u, mid, hi) && lo <= mid <= hi
    ensures Cleared(s, u, lo, hi)
  {
    hide Marked;
  }

  /** Clearing a range and then the one in front of it. */
  lemma ClearedBelow(s: seq<bv8>, t: seq<bv8>, u: seq<bv8>, lo: nat, mid: nat, hi: nat)
    requires Cleared(s, t, mid, hi) && Cleared(t, u, lo, mid) && lo <= mid <= hi
    ensures Cleared(s, u, lo, hi)
  {
    hide Marked;
  }

  lemma ClearCell(cells: seq<bv8>, g: nat, cell: bv8)
    requires g / CELL < |cells| && cell == cells[g / CELL] & !Mask(g % CELL)
    ensures Cleared(cells, cells[g / CELL := cell], g, g + 1)
  {
    hide Has, Mask;
    forall k: nat ensures Marked(cells[g / CELL := cell], k) <==> k != g && Marked(cells, k) {
      HasCleared(cells[g / CELL], g % CELL, k % CELL);
    }
  }

  /** s is the greatest set granule at or below g. */
  ghost predicate IsFloor(cells: seq<bv8>, g: nat, s: nat) {
    s <= g && Marked(cells, s) && forall k: nat :: s < k <= g ==> !Marked(cells, k)
  }

  /** The search stands at cell i: `byte` shows its bits up to g, and nothing is set in the cells above. */
  ghost predicate Seen(cells: seq<bv8>, i: nat, byte: bv8, g: nat) {
    i < |cells| && i * CELL <= g &&
    (forall j :: 0 <= j < CELL ==> (Has(byte, j) <==> i * CELL + j <= g && Has(cells[i], j))) &&
    (forall k: nat :: (i + 1) * CELL <= k <= g ==> !Marked(cells, k))
  }

  lemma FirstByte(cells: seq<bv8>, i: nat, r: nat)
    requires i < |cells| && r < CELL
    ensures Seen(cells, i, cells[i] & Below(r + 1), i * CELL + r)
  {
    hide Has, Below, Marked;
    var byte := cells[i] & Below(r + 1);
    forall j | 0 <= j < CELL ensures Has(byte, j) <==> j <= r && Has(cells[i], j) {
      HasBelow(cells[i], r + 1, j);
    }
  }

  /** A zero word: no set bit of cell i at or below g. */
  lemma EmptyCell(cells: seq<bv8>, i: nat, g: nat)
    requires Seen(cells, i, 0, g)
    ensures forall k: nat :: i * CELL <= k <= g ==> !Marked(cells, k)
  {
    hide Has;
    forall k: nat | i * CELL <= k <= g ensures !Marked(cells, k) {
      if k < (i + 1) * CELL {
        ZeroHasNone(k % CELL);
        assert k == i * CELL + k % CELL;
      }
    }
  }

  lemma NextByte(cells: seq<bv8>, i: nat, g: nat)
    requires Seen(cells, i, 0, g) && i > 0
    ensures Seen(cells, i - 1, cells[i - 1], g)
  {
    hide Has;
    EmptyCell(cells, i, g);
  }

  lemma NoByte(cells: seq<bv8>, g: nat)
    requires Seen(cells, 0, 0, g)
    ensures forall k: nat :: k <= g ==> !Marked(cells, k)
  {
    EmptyCell(cells, 0, g);
  }

  lemma HighestIs(cells: seq<bv8>, i: nat, byte: bv8, g: nat)
    requires Seen(cells, i, byte, g) && byte != 0
    ensures IsFloor(cells, g, i * CELL + Highest(byte))
  {
    hide Has;
    var s := i * CELL + Highest(byte);
    CellOf(i, Highest(byte));
    forall k: nat | s < k <= g ensures !Marked(cells, k) {
      if k < (i + 1) * CELL {
        assert k == i * CELL + k % CELL;
      }
    }
  }
}

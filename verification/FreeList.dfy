/** The free list as it lives in memory: entries threaded through the free blocks themselves. */
module FreeList {
  import opened Powers
  import opened Tiling
  import opened FreeListSpec

  // ---------------------------------------------------------------------------------------------
  // Entry words
  // ---------------------------------------------------------------------------------------------

  /** The size field: 13 bits from bit 3 on, in granules. The vtable field: 48 bits from bit 16 on. */
  const SIZE_TAG_UNIT: nat := 8
  const SIZE_TAG_RANGE: nat := 8192
  const MAX_SIZE_TAG: nat := (SIZE_TAG_RANGE - 1) * GRANULE
  const VTABLE_TAG_UNIT: nat := 0x1_0000

  /** Too large a size is stored as zero, which means "read the out-of-line word". */
  function SizeToTag(size: nat): nat {
    if size <= MAX_SIZE_TAG then size / GRANULE else 0
  }

  /** The first word of an entry: size field set, every vtable bit cleared. */
  function EntryTags(size: nat): nat {
    SizeToTag(size) % SIZE_TAG_RANGE * SIZE_TAG_UNIT % VTABLE_TAG_UNIT
  }

  function DecodeSize(tags: nat): nat {
    tags / SIZE_TAG_UNIT % SIZE_TAG_RANGE * GRANULE
  }

  predicate IsFree(tags: nat) { tags / VTABLE_TAG_UNIT == 0 }

  type Words = map<nat, nat>

  /** Words 0, 8 and 16 of an entry: tags, link, and the out-of-line size when the tag cannot hold it. */
  function WriteEntry(w: Words, b: Block, next: nat): Words {
    var small := w[b.addr := EntryTags(b.size)][b.addr + 8 := next];
    if b.size > MAX_SIZE_TAG then small[b.addr + 16 := b.size] else small
  }

  function ReadSize(w: Words, addr: nat): nat {
    var tagged := if addr in w then DecodeSize(w[addr]) else 0;
    if tagged == 0 then (if addr + 16 in w then w[addr + 16] else 0) else tagged
  }

  ghost predicate EntryAt(w: Words, b: Block, next: nat) {
    b.addr in w && IsFree(w[b.addr]) && DecodeSize(w[b.addr]) == (if b.size <= MAX_SIZE_TAG then b.size else 0) &&
    (b.size > MAX_SIZE_TAG ==> b.addr + 16 in w && w[b.addr + 16] == b.size) &&
    b.addr + 8 in w && w[b.addr + 8] == next
  }

  /** A written entry is recognisably free, and its size reads back through the tag or the out-of-line word. */
  lemma SizeReadsBack(w: Words, b: Block, next: nat)
    requires b.Granular()
    ensures EntryAt(WriteEntry(w, b, next), b, next)
    ensures ReadSize(WriteEntry(w, b, next), b.addr) == b.size
    ensures SameOutside(w, WriteEntry(w, b, next), b)
  {
    var n := SizeToTag(b.size);
    assert n < SIZE_TAG_RANGE && (n == 0 <==> b.size > MAX_SIZE_TAG);
    assert EntryTags(b.size) == n * SIZE_TAG_UNIT;
  }

  /** Two memories agree outside a block. */
  ghost predicate SameOutside(w: Words, v: Words, b: Block) {
    forall a :: !b.Holds(a) ==> (a in w <==> a in v) && (a in w ==> v[a] == w[a])
  }

  // ---------------------------------------------------------------------------------------------
  // Chains
  // ---------------------------------------------------------------------------------------------

  /** From `head` the links lead through exactly these blocks and then to null. */
  ghost predicate Linked(w: Words, head: nat, chain: seq<Block>)
    decreases |chain|
  {
    if chain == [] then head == 0
    else
      head == chain[0].addr && head > 0 && head + 8 in w && EntryAt(w, chain[0], w[head + 8]) &&
      Linked(w, w[head + 8], chain[1..])
  }

  ghost predicate ChainOk(w: Words, head: nat, tail: nat, chain: seq<Block>) {
    Linked(w, head, chain) && tail == (if chain == [] then 0 else chain[|chain| - 1].addr)
  }

  ghost predicate AllApart(chain: seq<Block>, b: Block) {
    forall c :: c in chain ==> c.Granular() && Apart(b, c)
  }

  /** Writing inside one block leaves chains of other blocks alone. */
  lemma {:induction false} LinkedOutside(w: Words, v: Words, head: nat, chain: seq<Block>, b: Block)
    requires Linked(w, head, chain) && SameOutside(w, v, b) && AllApart(chain, b)
    ensures Linked(v, head, chain)
    decreases |chain|
  {
    if chain != [] {
      var c := chain[0];
      assert c in chain;
      assert !b.Holds(c.addr) && !b.Holds(c.addr + 8);
      assert c.size > MAX_SIZE_TAG ==> !b.Holds(c.addr + 16);
      LinkedOutside(w, v, w[head + 8], chain[1..], b);
    }
  }

  /** Hanging a chain onto the last entry of another one. */
  lemma {:induction false} LinkedJoin(w: Words, v: Words, head: nat, chain: seq<Block>, next: nat, rest: seq<Block>)
    requires chain != [] && Linked(w, head, chain) && Linked(v, next, rest)
    requires forall b :: b in chain ==> b.Granular()
    requires forall j, k :: 0 <= j < k < |chain| ==> Apart(chain[j], chain[k])
    requires v == w[chain[|chain| - 1].addr + 8 := next]
    ensures Linked(v, head, chain + rest)
    decreases |chain|
  {
    var last := chain[|chain| - 1];
    var joined := chain + rest;
    assert chain[0] in chain && last in chain;
    assert joined[1..] == chain[1..] + rest;
    if |chain| == 1 {
      assert joined[1..] == rest;
    } else {
      assert Apart(chain[0], last);
      LinkedJoin(w, v, w[head + 8], chain[1..], next, rest);
    }
  }

  /** Every bucket's chain is linked from its head to its tail. */
  ghost predicate AllLinked(w: Words, heads: seq<nat>, tails: seq<nat>, chains: seq<seq<Block>>) {
    |heads| == |tails| == |chains| &&
    forall i :: 0 <= i < |chains| ==> ChainOk(w, heads[i], tails[i], chains[i])
  }

  ghost predicate BlocksApart(blocks: set<Block>) {
    forall b, c :: b in blocks && c in blocks && b != c ==> Apart(b, c)
  }

  ghost predicate ApartFrom(blocks: set<Block>, b: Block) {
    forall c :: c in blocks ==> Apart(b, c)
  }

  lemma AllApartOf(l: Lists, i: nat, b: Block)
    requires Ok(l) && i < |l.buckets| && ApartFrom(Blocks(l) - {b}, b) && b !in l.buckets[i]
    ensures AllApart(l.buckets[i], b)
  {
    assert BucketOk(i, l.buckets[i]);
    forall c | c in l.buckets[i] ensures Apart(b, c) {
      assert c in Blocks(l);
    }
  }

  lemma AddLinks(l: Lists, w: Words, heads: seq<nat>, tails: seq<nat>, b: Block, i: nat)
    requires Ok(l) && AllLinked(w, heads, tails, l.buckets)
    requires ApartFrom(Blocks(l), b) && b.Granular() && i < |l.buckets|
    ensures AllLinked(WriteEntry(w, b, heads[i]), heads[i := b.addr],
                      if heads[i] == 0 then tails[i := b.addr] else tails,
                      l.buckets[i := [b] + l.buckets[i]])
  {
    hide Ok, Blocks, WriteEntry, EntryAt;
    var v := WriteEntry(w, b, heads[i]);
    SizeReadsBack(w, b, heads[i]);
    var tails' := if heads[i] == 0 then tails[i := b.addr] else tails;
    forall k | 0 <= k < |l.buckets|
      ensures ChainOk(v, heads[i := b.addr][k], tails'[k], l.buckets[i := [b] + l.buckets[i]][k])
    {
      assert ChainOk(w, heads[k], tails[k], l.buckets[k]);
      NotIn(l, k, b);
      AllApartOf(l, k, b);
      LinkedOutside(w, v, heads[k], l.buckets[k], b);
      if k == i {
        EntryLink(v, b, heads[i]);
        PrependLinked(v, b, heads[i], l.buckets[i]);
      }
    }
  }

  lemma NotIn(l: Lists, k: nat, b: Block)
    requires ApartFrom(Blocks(l), b) && b.Granular() && k < |l.buckets|
    ensures b !in l.buckets[k]
  {
    assert Apart(b, b) ==> b.size == 0;
    assert b !in Blocks(l);
  }

  lemma EntryLink(w: Words, b: Block, next: nat)
    requires EntryAt(w, b, next)
    ensures b.addr + 8 in w && w[b.addr + 8] == next
  {
  }

  lemma PrependLinked(w: Words, b: Block, next: nat, chain: seq<Block>)
    requires EntryAt(w, b, next) && Linked(w, next, chain) && b.addr > 0
    ensures Linked(w, b.addr, [b] + chain)
  {
    assert ([b] + chain)[1..] == chain;
  }

  /** Unlinking the first entry of bucket i and clearing its link. */
  lemma TakeLinks(l: Lists, w: Words, heads: seq<nat>, tails: seq<nat>, i: nat)
    requires Ok(l) && AllLinked(w, heads, tails, l.buckets) && BlocksApart(Blocks(l))
    requires i < |l.buckets| && l.buckets[i] != []
    ensures heads[i] == l.buckets[i][0].addr && heads[i] + 8 in w && ReadSize(w, heads[i]) == l.buckets[i][0].size
    ensures AllLinked(w[heads[i] + 8 := 0], heads[i := w[heads[i] + 8]],
                      if w[heads[i] + 8] == 0 then tails[i := 0] else tails, l.buckets[i := l.buckets[i][1..]])
  {
    hide Ok;
    var b := l.buckets[i][0];
    BlockIn(l, i, 0);
    BlockIsGranular(l, b);
    assert ChainOk(w, heads[i], tails[i], l.buckets[i]);
    var next := w[heads[i] + 8];
    var v := w[heads[i] + 8 := 0];
    assert SameOutside(w, v, b);
    var tails' := if next == 0 then tails[i := 0] else tails;
    assert ApartFrom(Blocks(l) - {b}, b);
    forall k | 0 <= k < |l.buckets|
      ensures ChainOk(v, heads[i := next][k], tails'[k], l.buckets[i := l.buckets[i][1..]][k])
    {
      assert ChainOk(w, heads[k], tails[k], l.buckets[k]);
      if k == i {
        RestApart(l, i);
        LinkedOutside(w, v, next, l.buckets[i][1..], b);
      } else {
        OnlyInOwnBucket(l, i, k);
        AllApartOf(l, k, b);
        LinkedOutside(w, v, heads[k], l.buckets[k], b);
      }
    }
  }

  lemma OnlyInOwnBucket(l: Lists, i: nat, k: nat)
    requires Ok(l) && i < |l.buckets| && k < |l.buckets| && i != k && l.buckets[i] != []
    ensures l.buckets[i][0] !in l.buckets[k]
  {
    var b := l.buckets[i][0];
    assert b in l.buckets[i] && BucketOk(i, l.buckets[i]) && BucketOk(k, l.buckets[k]);
    if b in l.buckets[k] {
      BracketUnique(i, k, b.size);
    }
  }

  lemma RestApart(l: Lists, i: nat)
    requires Ok(l) && BlocksApart(Blocks(l)) && i < |l.buckets| && l.buckets[i] != []
    ensures AllApart(l.buckets[i][1..], l.buckets[i][0])
  {
    assert BucketOk(i, l.buckets[i]) && NoRepeats(l.buckets[i]);
    BlockIn(l, i, 0);
    forall c | c in l.buckets[i][1..] ensures c.Granular() && Apart(l.buckets[i][0], c) {
      var j :| 0 <= j < |l.buckets[i]| - 1 && l.buckets[i][1..][j] == c;
      BlockIn(l, i, j + 1);
    }
  }

  // ---------------------------------------------------------------------------------------------
  // The list
  // ---------------------------------------------------------------------------------------------

  class Memory {
    var words: Words
    constructor () { words := map[]; }
  }

  class FreeList {
    const mem: Memory
    const heads: array<nat>
    const tails: array<nat>
    var biggest: nat
    var count: nat
    var freeBytes: nat
    ghost var chains: seq<seq<Block>>

    ghost function Abs(): Lists
      reads this
    {
      Lists(chains, biggest, count, freeBytes)
    }

    ghost predicate Valid()
      reads this, mem, heads, tails
    {
      heads != tails && Ok(Abs()) && BlocksApart(Blocks(Abs())) && AllLinked(mem.words, heads[..], tails[..], chains)
    }

    constructor (memory: Memory, regionSizeLog2: nat)
      ensures Valid() && mem == memory && fresh(heads) && fresh(tails)
      ensures Abs() == Empty(regionSizeLog2 + 1)
    {
      var n := regionSizeLog2 + 1;
      mem := memory;
      heads := new nat[n](_ => 0);
      tails := new nat[n](_ => 0);
      biggest, count, freeBytes := 0, 0, 0;
      chains := Empty(n).buckets;
      new;
      EmptyOk(n);
    }

    /**
     * Adding links the block in front of its bucket; the writable rest of the block is returned. Sizes of 2^32 and
     * more have no bucket of their own: see `BucketIndexIff`.
     */
    method Add(addr: nat, size: nat) returns (lo: nat, hi: nat)
      requires Valid() && Block(addr, size).Granular() && HasBucket(Abs(), size) && size < TWO32
      requires ApartFrom(Blocks(Abs()), Block(addr, size))
      modifies this, mem, heads, tails
      ensures Valid() && Abs() == FreeListSpec.Add(old(Abs()), Block(addr, size))
      ensures SameOutside(old(mem.words), mem.words, Block(addr, size))
      ensures lo == addr + 16 && hi == addr + size
    {
      hide Ok, Blocks, AllLinked, WriteEntry, Pow2, FloorLog2, BucketIndex;
      ghost var l := Abs();
      ghost var b := Block(addr, size);
      BucketIndexIsLog(size);
      var index := BucketIndex(size);
      IndexInRange(l, size);
      AllLinkedLength(mem.words, heads[..], tails[..], chains);
      AddLinks(l, mem.words, heads[..], tails[..], b, index);
      SizeReadsBack(mem.words, b, heads[index]);
      AddApart(l, b);
      var next := heads[index];
      mem.words := WriteEntry(mem.words, Block(addr, size), next);
      heads[index] := addr;
      biggest := Max(biggest, index);
      if next == 0 {
        tails[index] := addr;
      }
      count := count + 1;
      freeBytes := freeBytes + size;
      chains := chains[index := [b] + chains[index]];
      lo, hi := addr + 16, addr + size;
    }

    method Clear()
      requires Valid()
      modifies this, heads, tails
      ensures Valid() && Abs() == Empty(old(|chains|))
    {
      AllLinkedLength(mem.words, heads[..], tails[..], chains);
      BiggestInRange(Abs());
      EmptyOk(|chains|);
      freeBytes, count, biggest := 0, 0, 0;
      for i := 0 to heads.Length
        modifies heads
        invariant forall k :: 0 <= k < i ==> heads[k] == 0
      {
        heads[i] := 0;
      }
      for i := 0 to tails.Length
        modifies tails
        invariant forall k :: 0 <= k < i ==> tails[k] == 0
      {
        tails[i] := 0;
      }
      chains := Empty(|chains|).buckets;
    }

    /**
     * Moves every entry of the donor in front of this list's entries. The donor has no entry left, but its counters
     * keep their old values.
     */
    method Append(other: FreeList)
      requires Valid() && other.Valid() && other != this && other.mem == mem && |chains| == |other.chains|
      requires {heads, tails} !! {other.heads, other.tails}
      requires forall b, c :: b in Blocks(Abs()) && c in Blocks(other.Abs()) ==> Apart(b, c)
      modifies this, mem, heads, tails, other, other.heads, other.tails
      ensures Valid() && Abs() == FreeListSpec.Append(old(Abs()), old(other.Abs()))
      ensures forall k :: 0 <= k < other.heads.Length ==> other.heads[k] == 0
      ensures forall k :: 0 <= k < other.tails.Length ==> other.tails[k] == 0
      ensures other.count == old(other.count) && other.freeBytes == old(other.freeBytes)
      ensures other.biggest == old(other.biggest)
    {
      hide Ok, Blocks, AllLinked, ChainOk, Pow2;
      ghost var l, o := Abs(), other.Abs();
      ghost var w, hs, ts, ohs, ots := mem.words, heads[..], tails[..], other.heads[..], other.tails[..];
      AllLinkedLength(w, hs, ts, chains);
      AllLinkedLength(w, ohs, ots, other.chains);
      JoinedNone(l, o, w, hs, ts, ohs, ots);
      for i := 0 to tails.Length
        modifies mem, heads, tails, other.heads, other.tails
        invariant Joined(l, o, i, mem.words, heads[..], tails[..], other.heads[..], other.tails[..])
      {
        JoinStep(l, o, i, mem.words, heads[..], tails[..], other.heads[..], other.tails[..]);
        var otherTail := other.tails[i];
        if otherTail != 0 {
          mem.words := mem.words[otherTail + 8 := heads[i]];
          if heads[i] == 0 {
            tails[i] := otherTail;
          }
          heads[i] := other.heads[i];
          other.heads[i] := 0;
          other.tails[i] := 0;
        }
      }
      AppendApart(l, o);
      count := count + other.count;
      freeBytes := freeBytes + other.freeBytes;
      biggest := Max(biggest, other.biggest);
      chains := FreeListSpec.Append(l, o).buckets;
      JoinedAll(l, o, mem.words, heads[..], tails[..], other.heads[..], other.tails[..]);
    }

    /** Unlinks the first entry of a bucket that has one. */
    method Unlink(index: nat) returns (addr: nat, size: nat)
      requires Valid() && index < |chains| && chains[index] != []
      requires count > 0 && freeBytes >= chains[index][0].size
      modifies this, mem, heads, tails
      ensures chains == old(chains)[index := old(chains)[index][1..]] && biggest == index
      ensures addr == old(chains)[index][0].addr && size == old(chains)[index][0].size
      ensures count == old(count) - 1 && freeBytes == old(freeBytes) - size
      ensures AllLinked(mem.words, heads[..], tails[..], chains)
      ensures mem.words == old(mem.words)[addr + 8 := 0]
    {
      hide Ok, Blocks, AllLinked, Pow2, ReadSize;
      AllLinkedLength(mem.words, heads[..], tails[..], chains);
      TakeLinks(Abs(), mem.words, heads[..], tails[..], index);
      addr := heads[index];
      size := ReadSize(mem.words, addr);
      if mem.words[addr + 8] == 0 {
        tails[index] := 0;
      }
      heads[index] := mem.words[addr + 8];
      mem.words := mem.words[addr + 8 := 0];
      biggest := index;
      freeBytes := freeBytes - size;
      count := count - 1;
      chains := chains[index := chains[index][1..]];
    }

    /** The downward search, which reads only the heads and the size of the one entry it may return. */
    method Allocate(n: nat) returns (addr: nat, size: nat)
      requires Valid()
      modifies this, mem, heads, tails
      ensures Valid()
      ensures var t := Take(old(Abs()), n);
                Abs() == t.lists &&
                (if t.Taken? then addr == t.block.addr && size == t.block.size else addr == 0 && size == 0)
      ensures mem.words == if addr == 0 then old(mem.words) else old(mem.words)[addr + 8 := 0]
    {
      hide Ok, Blocks, AllLinked, Pow2, ReadSize, BlocksApart;
      ghost var l := Abs();
      BiggestInRange(l);
      SearchInRange(l, n, l.biggest);
      AllLinkedLength(mem.words, heads[..], tails[..], chains);
      var index: nat := biggest;
      var bucketSize := Pow2(biggest);
      while index > 0
        invariant index <= l.biggest && bucketSize == Pow2(index)
        invariant Search(l, n, index) == Search(l, n, l.biggest)
        invariant Abs() == l && mem.words == old(mem.words) && heads[..] == old(heads[..])
        invariant tails[..] == old(tails[..])
      {
        var entry := heads[index];
        HeadReads(l, mem.words, heads[..], tails[..], index);
        if n > bucketSize {
          if entry == 0 || ReadSize(mem.words, entry) < n {
            break;
          }
        }
        if entry != 0 {
          TakeApart(l, n);
          addr, size := Unlink(index);
          return;
        }
        HalfPower(index);
        index := index - 1;
        bucketSize := bucketSize / 2;
      }
      RefusedOk(l, n);
      biggest := index;
      addr, size := 0, 0;
    }
  }

  /** Buckets below i are joined and the donor's are empty, the others are still apart. */
  ghost predicate Joined(
    l: Lists, o: Lists, i: nat, w: Words, heads: seq<nat>, tails: seq<nat>, oheads: seq<nat>, otails: seq<nat>)
  {
    |heads| == |tails| == |oheads| == |otails| == |l.buckets| == |o.buckets| && i <= |heads| &&
    (forall k :: 0 <= k < i ==> ChainOk(w, heads[k], tails[k], o.buckets[k] + l.buckets[k])) &&
    (forall k :: i <= k < |heads| ==> ChainOk(w, heads[k], tails[k], l.buckets[k])) &&
    (forall k :: i <= k < |heads| ==> ChainOk(w, oheads[k], otails[k], o.buckets[k])) &&
    forall k :: 0 <= k < i ==> oheads[k] == 0 && otails[k] == 0
  }

  ghost predicate Separate(l: Lists, o: Lists) {
    Ok(l) && Ok(o) && BlocksApart(Blocks(l)) && BlocksApart(Blocks(o)) &&
    forall b, c :: b in Blocks(l) && c in Blocks(o) ==> Apart(b, c)
  }

  lemma ChainOutside(w: Words, v: Words, head: nat, tail: nat, chain: seq<Block>, b: Block)
    requires ChainOk(w, head, tail, chain) && SameOutside(w, v, b) && AllApart(chain, b)
    ensures ChainOk(v, head, tail, chain)
  {
    LinkedOutside(w, v, head, chain, b);
  }

  /** The last block of a donor bucket lies apart from every other chain. */
  lemma LastApart(l: Lists, o: Lists, i: nat, k: nat)
    requires Separate(l, o) && |l.buckets| == |o.buckets| && i < |o.buckets| && k < |o.buckets| && o.buckets[i] != []
    ensures var last := o.buckets[i][|o.buckets[i]| - 1];
              last.Granular() && AllApart(l.buckets[k], last) && (k != i ==> AllApart(o.buckets[k], last))
  {
    hide Pow2;
    var last := o.buckets[i][|o.buckets[i]| - 1];
    BlockIn(o, i, |o.buckets[i]| - 1);
    assert BucketOk(i, o.buckets[i]) && BucketOk(k, o.buckets[k]) && BucketOk(k, l.buckets[k]);
    assert last in o.buckets[i];
    forall c | c in l.buckets[k] ensures Apart(last, c) {
      assert c in Blocks(l);
    }
    if k != i {
      forall c | c in o.buckets[k] ensures Apart(last, c) {
        assert c in Blocks(o);
        if c == last {
          BracketUnique(i, k, c.size);
        }
      }
    }
  }

  lemma AllApartBoth(xs: seq<Block>, ys: seq<Block>, b: Block)
    requires AllApart(xs, b) && AllApart(ys, b)
    ensures AllApart(xs + ys, b)
  {
  }

  lemma JoinedChain(l: Lists, o: Lists, i: nat, w: Words, head: nat, tail: nat, ohead: nat, otail: nat)
    requires Separate(l, o) && |l.buckets| == |o.buckets| && i < |o.buckets| && otail != 0
    requires ChainOk(w, head, tail, l.buckets[i]) && ChainOk(w, ohead, otail, o.buckets[i])
    ensures ChainOk(w[otail + 8 := head], ohead, if head == 0 then otail else tail, o.buckets[i] + l.buckets[i])
  {
    var chain := o.buckets[i];
    var v := w[otail + 8 := head];
    var last := chain[|chain| - 1];
    LastApart(l, o, i, i);
    assert BucketOk(i, chain) && NoRepeats(chain);
    LinkedOutside(w, v, head, l.buckets[i], last);
    forall j, k | 0 <= j < k < |chain| ensures Apart(chain[j], chain[k]) {
      BlockIn(o, i, j);
      BlockIn(o, i, k);
    }
    LinkedJoin(w, v, ohead, chain, head, l.buckets[i]);
    hide Separate, BucketOk, NoRepeats, BlocksApart;
    if head == 0 {
      assert l.buckets[i] == [];
      assert chain + l.buckets[i] == chain;
    }
  }

  /** A write inside the last block of the donor's bucket i leaves every other chain as it was. */
  lemma OthersKept(
    l: Lists, o: Lists, i: nat, w: Words, v: Words, heads: seq<nat>, tails: seq<nat>, oheads: seq<nat>,
    otails: seq<nat>)
    requires Separate(l, o) && i < |heads| && Joined(l, o, i, w, heads, tails, oheads, otails) && o.buckets[i] != []
    requires SameOutside(w, v, o.buckets[i][|o.buckets[i]| - 1])
    ensures forall k :: 0 <= k < i ==> ChainOk(v, heads[k], tails[k], o.buckets[k] + l.buckets[k])
    ensures forall k :: i < k < |heads| ==> ChainOk(v, heads[k], tails[k], l.buckets[k])
    ensures forall k :: i < k < |heads| ==> ChainOk(v, oheads[k], otails[k], o.buckets[k])
  {
    hide Separate, ChainOk, AllApart, SameOutside;
    var last := o.buckets[i][|o.buckets[i]| - 1];
    forall k | 0 <= k < i ensures ChainOk(v, heads[k], tails[k], o.buckets[k] + l.buckets[k]) {
      LastApart(l, o, i, k);
      AllApartBoth(o.buckets[k], l.buckets[k], last);
      ChainOutside(w, v, heads[k], tails[k], o.buckets[k] + l.buckets[k], last);
    }
    forall k | i < k < |heads|
      ensures ChainOk(v, heads[k], tails[k], l.buckets[k]) && ChainOk(v, oheads[k], otails[k], o.buckets[k])
    {
      LastApart(l, o, i, k);
      ChainOutside(w, v, heads[k], tails[k], l.buckets[k], last);
      ChainOutside(w, v, oheads[k], otails[k], o.buckets[k], last);
    }
  }

  lemma Assemble(
    l: Lists, o: Lists, i: nat, v: Words, heads: seq<nat>, tails: seq<nat>, oheads: seq<nat>, otails: seq<nat>,
    head: nat, tail: nat)
    requires |heads| == |tails| == |oheads| == |otails| == |l.buckets| == |o.buckets| && i < |heads|
    requires forall k :: 0 <= k < i ==> ChainOk(v, heads[k], tails[k], o.buckets[k] + l.buckets[k])
    requires ChainOk(v, head, tail, o.buckets[i] + l.buckets[i])
    requires forall k :: i < k < |heads| ==> ChainOk(v, heads[k], tails[k], l.buckets[k])
    requires forall k :: i < k < |heads| ==> ChainOk(v, oheads[k], otails[k], o.buckets[k])
    requires forall k :: 0 <= k < i ==> oheads[k] == 0 && otails[k] == 0
    ensures Joined(l, o, i + 1, v, heads[i := head], tails[i := tail], oheads[i := 0], otails[i := 0])
  {
    hide ChainOk;
  }

  lemma WriteLink(w: Words, b: Block, next: nat)
    requires b.Granular()
    ensures SameOutside(w, w[b.addr + 8 := next], b)
  {
  }

  lemma JoinNothing(
    l: Lists, o: Lists, i: nat, w: Words, heads: seq<nat>, tails: seq<nat>, oheads: seq<nat>, otails: seq<nat>)
    requires i < |heads| && Joined(l, o, i, w, heads, tails, oheads, otails) && o.buckets[i] == []
    ensures Joined(l, o, i + 1, w, heads, tails, oheads, otails)
  {
    assert ChainOk(w, oheads[i], otails[i], []);
    hide ChainOk;
    assert o.buckets[i] + l.buckets[i] == l.buckets[i];
  }

  lemma JoinBucket(
    l: Lists, o: Lists, i: nat, w: Words, heads: seq<nat>, tails: seq<nat>, oheads: seq<nat>, otails: seq<nat>)
    requires Separate(l, o) && i < |heads| && Joined(l, o, i, w, heads, tails, oheads, otails)
    requires o.buckets[i] != [] && otails[i] != 0
    ensures Joined(l, o, i + 1, w[otails[i] + 8 := heads[i]], heads[i := oheads[i]],
                   tails[i := if heads[i] == 0 then otails[i] else tails[i]], oheads[i := 0], otails[i := 0])
  {
    hide Separate, ChainOk, AllApart, SameOutside;
    var v := w[otails[i] + 8 := heads[i]];
    LastApart(l, o, i, i);
    LastAddr(w, oheads[i], otails[i], o.buckets[i]);
    WriteLink(w, o.buckets[i][|o.buckets[i]| - 1], heads[i]);
    JoinedChain(l, o, i, w, heads[i], tails[i], oheads[i], otails[i]);
    OthersKept(l, o, i, w, v, heads, tails, oheads, otails);
    Assemble(l, o, i, v, heads, tails, oheads, otails, oheads[i], if heads[i] == 0 then otails[i] else tails[i]);
  }

  lemma JoinStep(
    l: Lists, o: Lists, i: nat, w: Words, heads: seq<nat>, tails: seq<nat>, oheads: seq<nat>, otails: seq<nat>)
    requires Separate(l, o) && i < |heads| && Joined(l, o, i, w, heads, tails, oheads, otails)
    ensures if otails[i] == 0 then Joined(l, o, i + 1, w, heads, tails, oheads, otails)
            else Joined(l, o, i + 1, w[otails[i] + 8 := heads[i]], heads[i := oheads[i]],
                        tails[i := if heads[i] == 0 then otails[i] else tails[i]], oheads[i := 0], otails[i := 0])
  {
    NullTail(o, i, w, oheads[i], otails[i]);
    hide Separate, Joined;
    if otails[i] == 0 {
      JoinNothing(l, o, i, w, heads, tails, oheads, otails);
    } else {
      JoinBucket(l, o, i, w, heads, tails, oheads, otails);
    }
  }

  lemma JoinedNone(l: Lists, o: Lists, w: Words, heads: seq<nat>, tails: seq<nat>, oheads: seq<nat>, otails: seq<nat>)
    requires AllLinked(w, heads, tails, l.buckets) && AllLinked(w, oheads, otails, o.buckets)
    requires |l.buckets| == |o.buckets|
    ensures Joined(l, o, 0, w, heads, tails, oheads, otails)
  {
  }

  lemma NullTail(o: Lists, i: nat, w: Words, head: nat, tail: nat)
    requires Ok(o) && i < |o.buckets| && ChainOk(w, head, tail, o.buckets[i])
    ensures tail == 0 <==> o.buckets[i] == []
  {
    if o.buckets[i] != [] {
      BlockIn(o, i, |o.buckets[i]| - 1);
      BlockIsGranular(o, o.buckets[i][|o.buckets[i]| - 1]);
    }
  }

  lemma LastAddr(w: Words, head: nat, tail: nat, chain: seq<Block>)
    requires chain != [] && ChainOk(w, head, tail, chain)
    ensures tail == chain[|chain| - 1].addr
  {
  }

  lemma JoinedAll(l: Lists, o: Lists, w: Words, heads: seq<nat>, tails: seq<nat>, oheads: seq<nat>, otails: seq<nat>)
    requires Joined(l, o, |l.buckets|, w, heads, tails, oheads, otails)
    ensures AllLinked(w, heads, tails, FreeListSpec.Append(l, o).buckets)
    ensures |oheads| == |otails| == |l.buckets| && forall k :: 0 <= k < |oheads| ==> oheads[k] == 0 && otails[k] == 0
  {
  }

  lemma AppendApart(l: Lists, o: Lists)
    requires Separate(l, o) && |l.buckets| == |o.buckets|
    ensures Ok(FreeListSpec.Append(l, o)) && BlocksApart(Blocks(FreeListSpec.Append(l, o)))
  {
    hide Ok, Blocks;
    forall b | b in Blocks(l) ensures b !in Blocks(o) {
      BlockIsGranular(l, b);
    }
    AppendKeeps(l, o);
  }

  lemma AllLinkedLength(w: Words, heads: seq<nat>, tails: seq<nat>, chains: seq<seq<Block>>)
    requires AllLinked(w, heads, tails, chains)
    ensures |heads| == |tails| == |chains|
  {
  }

  lemma BiggestInRange(l: Lists)
    requires Ok(l)
    ensures l.biggest < |l.buckets|
  {
  }

  /** The head of a bucket is null or the address of its first block, whose size can be read there. */
  lemma HeadReads(l: Lists, w: Words, heads: seq<nat>, tails: seq<nat>, i: nat)
    requires Ok(l) && AllLinked(w, heads, tails, l.buckets) && i < |l.buckets|
    ensures |heads| == |l.buckets| && (heads[i] == 0 <==> l.buckets[i] == [])
    ensures l.buckets[i] != [] ==> heads[i] == l.buckets[i][0].addr && ReadSize(w, heads[i]) == l.buckets[i][0].size
  {
    hide Ok;
    assert ChainOk(w, heads[i], tails[i], l.buckets[i]);
    if l.buckets[i] != [] {
      BlockIn(l, i, 0);
      BlockIsGranular(l, l.buckets[i][0]);
    }
  }

  lemma AddApart(l: Lists, b: Block)
    requires Ok(l) && HasBucket(l, b.size) && b.Granular() && BlocksApart(Blocks(l)) && ApartFrom(Blocks(l), b)
    ensures Ok(FreeListSpec.Add(l, b)) && BlocksApart(Blocks(FreeListSpec.Add(l, b)))
  {
    hide Ok, Blocks;
    AddKeeps(l, b);
  }

  lemma TakeApart(l: Lists, n: nat)
    requires Ok(l) && BlocksApart(Blocks(l)) && Take(l, n).Taken?
    ensures Ok(Take(l, n).lists) && BlocksApart(Blocks(Take(l, n).lists))
  {
    hide Ok, Blocks, Take;
    TakenFits(l, n);
    assert forall b :: b in Blocks(Take(l, n).lists) ==> b in Blocks(l);
  }

  lemma RefusedOk(l: Lists, n: nat)
    requires Ok(l) && BlocksApart(Blocks(l)) && Take(l, n).Refused?
    ensures Ok(Take(l, n).lists) && BlocksApart(Blocks(Take(l, n).lists))
  {
    hide BucketOk, NoRepeats, TotalCount, TotalBytes;
    SearchFinds(l, n, l.biggest);
    SameBuckets(l, Take(l, n).lists);
  }
}

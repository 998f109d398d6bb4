/** The segregated free list as a value: what adding, allocating and appending do to its buckets. */
module FreeListSpec {
  import opened Powers
  import opened Tiling

  /** `biggest` is a bound: every bucket above it is empty. */
  datatype Lists = Lists(buckets: seq<seq<Block>>, biggest: nat, count: nat, bytes: nat)

  datatype Taken = Taken(lists: Lists, block: Block) | Refused(lists: Lists)

  // ---------------------------------------------------------------------------------------------
  // Bucket index
  // ---------------------------------------------------------------------------------------------

  const TWO32: nat := 0x1_0000_0000
  const TWO31: nat := 0x8000_0000

  /** 32 - leading_zeros. */
  function BitLength(v: nat): nat {
    if v == 0 then 0 else 1 + BitLength(v / 2)
  }

  function RoundUp32(v: nat): nat
    requires v <= TWO31
  {
    Pow2(BitLength(if v > 0 then v - 1 else v))
  }

  function RoundDown32(v: nat): nat {
    if v > TWO31 then TWO31
    else
      var up := RoundUp32(v);
      if up > v then up / 2 else up
  }

  /** Trailing zeros of a 64-bit word. */
  function TrailingZeros(v: nat): nat {
    if v == 0 then 64 else if v % 2 == 1 then 0 else 1 + TrailingZeros(v / 2)
  }

  /** The size is cut to 32 bits on the way in. */
  function BucketIndex(size: nat): nat {
    TrailingZeros(RoundDown32(size % TWO32))
  }

  lemma {:induction false} BitLengthBracket(v: nat)
    requires v > 0
    ensures BitLength(v) > 0 && Pow2(BitLength(v) - 1) <= v < Pow2(BitLength(v))
  {
    if v > 1 {
      BitLengthBracket(v / 2);
    }
  }

  lemma {:induction false} TrailingZerosOfPower(k: nat)
    ensures TrailingZeros(Pow2(k)) == k
  {
    if k > 0 {
      TrailingZerosOfPower(k - 1);
    }
  }

  lemma Pow2Of31()
    ensures Pow2(31) == TWO31 && Pow2(32) == TWO32
  {
    Pow2Sum(16, 15);
    assert Pow2(8) == 256;
    Pow2Sum(8, 8);
    assert Pow2(15) == 0x8000 by { Pow2Sum(8, 7); }
  }

  lemma HalfPower(n: nat)
    requires n > 0
    ensures Pow2(n) / 2 == Pow2(n - 1)
  {
  }

  lemma RoundDownBracket(v: nat)
    requires 0 < v < TWO32
    ensures RoundDown32(v) == Pow2(FloorLog2(v))
  {
    hide Pow2, BitLength, FloorLog2;
    var k := FloorLog2(v);
    Pow2Of31();
    if v > TWO31 {
      BracketUnique(k, 31, v);
    } else if v == 1 {
      RoundDownOne();
    } else {
      BitLengthBracket(v - 1);
      var n := BitLength(v - 1);
      HalfPower(n);
      HalfPower(n + 1);
      if Pow2(n) > v {
        BracketUnique(k, n - 1, v);
      } else {
        BracketUnique(k, n, v);
      }
    }
  }

  lemma RoundDownOne()
    ensures RoundDown32(1) == 1 == Pow2(FloorLog2(1))
  {
    assert BitLength(0) == 0;
  }

  lemma {:induction false} TrailingZerosRange(v: nat)
    requires v < TWO32
    ensures TrailingZeros(v) < 32 || (v == 0 && TrailingZeros(v) == 64)
  {
    if v != 0 {
      Pow2Of31();
      TrailingZerosBelow(v, 32);
    }
  }

  lemma {:induction false} TrailingZerosBelow(v: nat, k: nat)
    requires 0 < v < Pow2(k)
    ensures TrailingZeros(v) < k
  {
    if v % 2 == 0 {
      TrailingZerosBelow(v / 2, k - 1);
    }
  }

  lemma RoundDownFits(v: nat)
    requires v < TWO32
    ensures RoundDown32(v) < TWO32
  {
    if v > 0 {
      RoundDownBracket(v);
    } else {
      assert BitLength(0) == 0;
    }
  }

  /** A 64-bit size lands in the bucket of its own magnitude exactly when it is not zero and fits 32 bits. */
  lemma BucketIndexIff(size: nat)
    requires size < TWO32 * TWO32
    ensures (Pow2(BucketIndex(size)) <= size < Pow2(BucketIndex(size) + 1)) <==> 0 < size < TWO32
  {
    hide Pow2, RoundDown32, TrailingZeros, FloorLog2;
    var v := size % TWO32;
    Pow2Of31();
    if 0 < size < TWO32 {
      RoundDownBracket(v);
      TrailingZerosOfPower(FloorLog2(v));
    } else {
      RoundDownFits(v);
      TrailingZerosRange(RoundDown32(v));
      Pow2Sum(32, 32);
      if BucketIndex(size) < 32 {
        Pow2Monotone(BucketIndex(size) + 1, 32);
      }
    }
  }

  /** A size of 2^32 is cut to zero and sent to bucket 64, past the end of every bucket array. */
  lemma TruncatedSizeHappens()
    ensures BucketIndex(TWO32) == 64
  {
    ZeroBucket(TWO32);
  }

  /** The bit tricks compute the logarithm. */
  lemma BucketIndexIsLog(size: nat)
    requires 0 < size < TWO32
    ensures BucketIndex(size) == FloorLog2(size)
  {
    BucketIndexIff(size);
    BracketUnique(BucketIndex(size), FloorLog2(size), size);
  }

  lemma {:induction false} HighPower(k: nat)
    requires k >= 32
    ensures Pow2(k) % TWO32 == 0
  {
    if k == 32 {
      Pow2Of31();
    } else {
      HighPower(k - 1);
      assert Pow2(k) == 2 * Pow2(k - 1);
      hide Pow2;
    }
  }

  lemma ZeroBucket(size: nat)
    requires size % TWO32 == 0
    ensures BucketIndex(size) == 64
  {
    assert RoundUp32(0) == 1 by { assert BitLength(0) == 0; }
  }

  lemma LogOfPower(k: nat)
    ensures FloorLog2(Pow2(k)) == k
  {
    assert Pow2(k + 1) == 2 * Pow2(k);
    hide FloorLog2;
    BracketUnique(FloorLog2(Pow2(k)), k, Pow2(k));
  }

  /** The bucket of a power of two: its own below 2^32, none from there on. */
  lemma PowerBucket(k: nat)
    ensures BucketIndex(Pow2(k)) == if k < 32 then k else 64
  {
    hide Pow2, BucketIndex, FloorLog2;
    if k < 32 {
      Pow2Of31();
      Pow2Monotone(k, 31);
      BucketIndexIsLog(Pow2(k));
      LogOfPower(k);
    } else {
      HighPower(k);
      ZeroBucket(Pow2(k));
    }
  }

  // ---------------------------------------------------------------------------------------------
  // Operations
  // ---------------------------------------------------------------------------------------------

  function Empty(buckets: nat): Lists {
    Lists(seq(buckets, _ => []), 0, 0, 0)
  }

  /** There is a bucket for a block of this size. */
  predicate HasBucket(l: Lists, size: nat) {
    0 < size < Pow2(|l.buckets|)
  }

  lemma IndexInRange(l: Lists, size: nat)
    requires HasBucket(l, size)
    ensures FloorLog2(size) < |l.buckets|
  {
    if FloorLog2(size) >= |l.buckets| {
      Pow2Monotone(|l.buckets|, FloorLog2(size));
    }
  }

  function Max(a: nat, b: nat): nat { if a < b then b else a }

  function Add(l: Lists, b: Block): Lists
    requires HasBucket(l, b.size)
  {
    IndexInRange(l, b.size);
    var i := FloorLog2(b.size);
    Lists(l.buckets[i := [b] + l.buckets[i]], Max(l.biggest, i), l.count + 1, l.bytes + b.size)
  }

  datatype Probe = Hit(index: nat) | Miss(index: nat)

  /** The downward walk of `allocate`: in a bucket that might not fit only the first entry is looked at. */
  function Search(l: Lists, n: nat, index: nat): Probe
    requires index < |l.buckets|
  {
    var bucket := l.buckets[index];
    if index == 0 then Miss(0)
    else if n > Pow2(index) && (bucket == [] || bucket[0].size < n) then Miss(index)
    else if bucket != [] then Hit(index)
    else Search(l, n, index - 1)
  }

  function Take(l: Lists, n: nat): Taken
    requires Ok(l)
  {
    var p := Search(l, n, l.biggest);
    if p.Miss? then Refused(l.(biggest := p.index))
    else
      SearchInRange(l, n, l.biggest);
      BytesPositive(l.buckets, p.index);
      var bucket := l.buckets[p.index];
      Taken(Lists(l.buckets[p.index := bucket[1..]], p.index, l.count - 1, l.bytes - bucket[0].size), bucket[0])
  }

  function Append(l: Lists, other: Lists): Lists
    requires |l.buckets| == |other.buckets|
  {
    Lists(seq(|l.buckets|, i requires 0 <= i < |l.buckets| => other.buckets[i] + l.buckets[i]),
          Max(l.biggest, other.biggest), l.count + other.count, l.bytes + other.bytes)
  }

  // ---------------------------------------------------------------------------------------------
  // Invariant
  // ---------------------------------------------------------------------------------------------

  function SizeSum(bucket: seq<Block>): nat {
    if bucket == [] then 0 else bucket[0].size + SizeSum(bucket[1..])
  }

  function TotalCount(buckets: seq<seq<Block>>): nat {
    if buckets == [] then 0 else |buckets[0]| + TotalCount(buckets[1..])
  }

  function TotalBytes(buckets: seq<seq<Block>>): nat {
    if buckets == [] then 0 else SizeSum(buckets[0]) + TotalBytes(buckets[1..])
  }

  /** Bucket i holds sizes from 2^i to just below 2^(i+1). */
  predicate BucketOk(i: nat, bucket: seq<Block>) {
    forall b :: b in bucket ==> b.Granular() && Pow2(i) <= b.size < Pow2(i + 1)
  }

  predicate NoRepeats(bucket: seq<Block>) {
    forall j, k :: 0 <= j < k < |bucket| ==> bucket[j] != bucket[k]
  }

  predicate Ok(l: Lists) {
    l.biggest < |l.buckets| &&
    (forall i :: 0 <= i < |l.buckets| ==> BucketOk(i, l.buckets[i])) &&
    (forall i :: 0 <= i < |l.buckets| ==> NoRepeats(l.buckets[i])) &&
    (forall i :: l.biggest < i < |l.buckets| ==> l.buckets[i] == []) &&
    l.count == TotalCount(l.buckets) &&
    l.bytes == TotalBytes(l.buckets)
  }

  ghost function Blocks(l: Lists): set<Block> {
    set i: nat, b | i < |l.buckets| && b in l.buckets[i] :: b
  }

  lemma BlockIn(l: Lists, i: nat, j: nat)
    requires i < |l.buckets| && j < |l.buckets[i]|
    ensures l.buckets[i][j] in Blocks(l)
  {
    assert l.buckets[i][j] in l.buckets[i];
  }

  lemma BlockIsGranular(l: Lists, b: Block)
    requires Ok(l) && b in Blocks(l)
    ensures b.Granular() && HasBucket(l, b.size)
  {
    var i: nat :| i < |l.buckets| && b in l.buckets[i];
    assert BucketOk(i, l.buckets[i]);
    Pow2Monotone(i + 1, |l.buckets|);
  }

  function FloorLog2Of(l: Lists, size: nat): (i: nat)
    requires HasBucket(l, size)
    ensures i < |l.buckets| && i == FloorLog2(size)
  {
    IndexInRange(l, size);
    FloorLog2(size)
  }

  // ---------------------------------------------------------------------------------------------
  // Totals
  // ---------------------------------------------------------------------------------------------

  lemma {:induction false} TotalsUpdate(buckets: seq<seq<Block>>, i: nat, bucket: seq<Block>)
    requires i < |buckets|
    ensures TotalCount(buckets[i := bucket]) == TotalCount(buckets) - |buckets[i]| + |bucket|
    ensures TotalBytes(buckets[i := bucket]) == TotalBytes(buckets) - SizeSum(buckets[i]) + SizeSum(bucket)
  {
    if i == 0 {
      assert buckets[i := bucket][1..] == buckets[1..];
    } else {
      assert buckets[i := bucket][1..] == buckets[1..][i - 1 := bucket];
      TotalsUpdate(buckets[1..], i - 1, bucket);
    }
  }

  lemma {:induction false} BytesPositive(buckets: seq<seq<Block>>, i: nat)
    requires i < |buckets| && buckets[i] != []
    ensures TotalCount(buckets) >= 1 && TotalBytes(buckets) >= buckets[i][0].size
  {
    if i > 0 {
      BytesPositive(buckets[1..], i - 1);
    }
  }

  /** Free bytes are zero exactly when no block is free. */
  lemma {:induction false} NoBytesIff(l: Lists)
    requires Ok(l)
    ensures l.bytes == 0 <==> Blocks(l) == {}
  {
    if l.bytes == 0 {
      forall b ensures b !in Blocks(l) {
        if b in Blocks(l) {
          var i: nat :| i < |l.buckets| && b in l.buckets[i];
          assert BucketOk(i, l.buckets[i]);
          assert l.buckets[i][0] in l.buckets[i];
          BytesPositive(l.buckets, i);
        }
      }
    } else if Blocks(l) == {} {
      forall i | 0 <= i < |l.buckets| ensures l.buckets[i] == [] {
        if l.buckets[i] != [] {
          BlockIn(l, i, 0);
        }
      }
      EmptyTotals(l.buckets);
    }
  }

  lemma {:induction false} EmptyTotals(buckets: seq<seq<Block>>)
    requires forall i :: 0 <= i < |buckets| ==> buckets[i] == []
    ensures TotalCount(buckets) == 0 && TotalBytes(buckets) == 0
  {
    if buckets != [] {
      EmptyTotals(buckets[1..]);
    }
  }

  // ---------------------------------------------------------------------------------------------
  // What the operations keep and what they return
  // ---------------------------------------------------------------------------------------------

  lemma EmptyOk(n: nat)
    requires n > 0
    ensures Ok(Empty(n)) && Blocks(Empty(n)) == {}
  {
    EmptyTotals(Empty(n).buckets);
  }

  lemma PrependBlocks(l: Lists, m: Lists, i: nat, b: Block)
    requires i < |l.buckets| && m.buckets == l.buckets[i := [b] + l.buckets[i]]
    ensures Blocks(m) == Blocks(l) + {b}
  {
    forall x ensures x in Blocks(m) <==> x in Blocks(l) + {b} {
      if x in Blocks(m) {
        var k: nat :| k < |m.buckets| && x in m.buckets[k];
        assert x == b || x in l.buckets[k];
      }
      if x in Blocks(l) {
        var k: nat :| k < |l.buckets| && x in l.buckets[k];
        assert x in m.buckets[k];
      }
      assert b in m.buckets[i];
    }
  }

  lemma PrependBucket(l: Lists, i: nat, b: Block)
    requires Ok(l) && i < |l.buckets| && b !in Blocks(l) && b.Granular() && Pow2(i) <= b.size < Pow2(i + 1)
    ensures BucketOk(i, [b] + l.buckets[i]) && NoRepeats([b] + l.buckets[i])
  {
    assert BucketOk(i, l.buckets[i]) && NoRepeats(l.buckets[i]);
    forall j | 0 <= j < |l.buckets[i]| ensures l.buckets[i][j] != b {
      BlockIn(l, i, j);
    }
  }

  lemma AddKeeps(l: Lists, b: Block)
    requires Ok(l) && HasBucket(l, b.size) && b.Granular() && b !in Blocks(l)
    ensures Ok(Add(l, b))
    ensures Blocks(Add(l, b)) == Blocks(l) + {b}
    ensures |Add(l, b).buckets| == |l.buckets| && Add(l, b).bytes == l.bytes + b.size
  {
    hide Blocks, BucketOk, NoRepeats, TotalCount, TotalBytes, Pow2, FloorLog2;
    var i := FloorLog2Of(l, b.size);
    PrependBucket(l, i, b);
    PrependBlocks(l, Add(l, b), i, b);
    TotalsUpdate(l.buckets, i, [b] + l.buckets[i]);
    assert ([b] + l.buckets[i])[1..] == l.buckets[i];
  }

  lemma {:induction false} SearchInRange(l: Lists, n: nat, index: nat)
    requires index < |l.buckets|
    ensures var p := Search(l, n, index);
            p.index <= index &&
            (p.Hit? ==> p.index > 0 && l.buckets[p.index] != [])
  {
    if Search(l, n, index) != Miss(index) && l.buckets[index] == [] {
      SearchInRange(l, n, index - 1);
    }
  }

  /** Where the walk stops: a hit fits, a miss has only empty buckets above it. */
  lemma {:induction false} SearchFinds(l: Lists, n: nat, index: nat)
    requires Ok(l) && index < |l.buckets|
    requires forall i :: index < i < |l.buckets| ==> l.buckets[i] == []
    ensures var p := Search(l, n, index);
            p.index <= index &&
            (forall i :: p.index < i < |l.buckets| ==> l.buckets[i] == []) &&
            (p.Hit? ==> p.index > 0 && l.buckets[p.index] != [] && l.buckets[p.index][0].size >= n) &&
            (p.Miss? ==>
               p.index == 0 ||
               (n > Pow2(p.index) && (l.buckets[p.index] != [] ==> l.buckets[p.index][0].size < n)))
  {
    assert BucketOk(index, l.buckets[index]);
    if index > 0 && l.buckets[index] == [] && n <= Pow2(index) {
      SearchFinds(l, n, index - 1);
    } else if l.buckets[index] != [] {
      assert l.buckets[index][0] in l.buckets[index];
    }
  }

  /** The least k with n <= 2^k. */
  function CeilLog2(n: nat): (k: nat)
    requires n > 0
    ensures n <= Pow2(k)
    ensures k > 0 ==> Pow2(k - 1) < n
  {
    if n == 1 then 0 else 1 + CeilLog2((n + 1) / 2)
  }

  lemma BlockBelow(l: Lists, top: nat, b: Block)
    requires Ok(l) && b in Blocks(l)
    requires forall i :: top < i < |l.buckets| ==> l.buckets[i] == []
    ensures b.size < Pow2(top + 1) && top > 0
  {
    BottomBucketEmpty(l);
    hide Pow2;
    var i: nat :| i < |l.buckets| && b in l.buckets[i];
    assert BucketOk(i, l.buckets[i]);
    Pow2Monotone(i + 1, top + 1);
  }

  /** Bucket 0 would hold one-byte blocks. */
  lemma BottomBucketEmpty(l: Lists)
    requires Ok(l)
    ensures l.buckets[0] == []
  {
    assert BucketOk(0, l.buckets[0]);
    assert forall b :: b in l.buckets[0] ==> b.Granular() && b.size < Pow2(1) == 2;
  }

  lemma TailBucket(i: nat, bucket: seq<Block>)
    requires bucket != [] && BucketOk(i, bucket) && NoRepeats(bucket)
    ensures BucketOk(i, bucket[1..]) && NoRepeats(bucket[1..])
  {
  }

  /** A block that is handed out is large enough and leaves the list. */
  lemma TakenFits(l: Lists, n: nat)
    requires Ok(l) && Take(l, n).Taken?
    ensures var t := Take(l, n);
            Ok(t.lists) && t.block.size >= n && t.block in Blocks(l) &&
            Blocks(t.lists) == Blocks(l) - {t.block} &&
            t.lists.bytes == l.bytes - t.block.size && |t.lists.buckets| == |l.buckets|
  {
    hide Blocks, BucketOk, NoRepeats, TotalCount, TotalBytes, Pow2, Search;
    SearchFinds(l, n, l.biggest);
    var i := Search(l, n, l.biggest).index;
    TailBucket(i, l.buckets[i]);
    TotalsUpdate(l.buckets, i, l.buckets[i][1..]);
    BlockIn(l, i, 0);
    TakenBlocks(l, i);
    SameBuckets(Take(l, n).lists, l.(buckets := l.buckets[i := l.buckets[i][1..]]));
  }

  lemma SameBuckets(l: Lists, m: Lists)
    requires l.buckets == m.buckets
    ensures Blocks(l) == Blocks(m)
  {
  }

  lemma TakenBlocks(l: Lists, i: nat)
    requires Ok(l) && i < |l.buckets| && l.buckets[i] != []
    ensures Blocks(l.(buckets := l.buckets[i := l.buckets[i][1..]])) == Blocks(l) - {l.buckets[i][0]}
  {
    hide Pow2;
    var m := l.(buckets := l.buckets[i := l.buckets[i][1..]]);
    var b := l.buckets[i][0];
    assert BucketOk(i, l.buckets[i]) && NoRepeats(l.buckets[i]);
    forall x ensures x in Blocks(m) <==> x in Blocks(l) && x != b {
      if x in Blocks(m) {
        var k: nat :| k < |m.buckets| && x in m.buckets[k];
        assert x in l.buckets[k];
        assert BucketOk(k, l.buckets[k]);
        if x == b {
          BracketUnique(i, k, b.size);
        }
      }
      if x in Blocks(l) && x != b {
        var k: nat :| k < |l.buckets| && x in l.buckets[k];
        assert x in m.buckets[k];
      }
    }
  }

  lemma MissIsAbove(l: Lists, n: nat, i: nat, b: Block)
    requires Ok(l) && n > 0 && b in Blocks(l) && (i == 0 || n > Pow2(i))
    requires forall k :: i < k < |l.buckets| ==> l.buckets[k] == []
    ensures b.size < Pow2(CeilLog2(n))
  {
    hide Pow2, Ok, Blocks, CeilLog2;
    BlockBelow(l, i, b);
    if CeilLog2(n) <= i {
      Pow2Monotone(CeilLog2(n), i);
    } else {
      Pow2Monotone(i + 1, CeilLog2(n));
    }
  }

  /** A refusal changes no block, and every free block is below the power of two that n rounds up to. */
  lemma RefusedMeansSmall(l: Lists, n: nat)
    requires Ok(l) && n > 0 && Take(l, n).Refused?
    ensures var m := Take(l, n).lists;
            Ok(m) && m.buckets == l.buckets && m.bytes == l.bytes && m.count == l.count && Blocks(m) == Blocks(l)
    ensures forall b :: b in Blocks(l) ==> b.size < Pow2(CeilLog2(n))
  {
    hide Pow2, Blocks, Search, CeilLog2, BucketOk, NoRepeats, TotalCount, TotalBytes;
    SearchFinds(l, n, l.biggest);
    SameBuckets(Take(l, n).lists, l);
    forall b | b in Blocks(l) ensures b.size < Pow2(CeilLog2(n)) {
      MissIsAbove(l, n, Search(l, n, l.biggest).index, b);
    }
  }

  /**
   * Exactly when an allocation succeeds: some block reaches the power of two that n rounds up to, or the bucket
   * of n's own magnitude begins with a block of at least n bytes.
   */
  lemma TakeSucceedsIff(l: Lists, n: nat)
    requires Ok(l) && n > 1
    ensures Take(l, n).Taken? <==> LargeBlock(l, CeilLog2(n)) || LuckyHead(l, n, CeilLog2(n))
  {
    assert CeilLog2(n) > 0;
    hide Blocks, Search, CeilLog2, Pow2;
    SearchFinds(l, n, l.biggest);
    var p := Search(l, n, l.biggest);
    if p.Hit? {
      HitMeans(l, n, CeilLog2(n), p.index);
    } else {
      RefusedMeansSmall(l, n);
      MissMeans(l, n, CeilLog2(n), p.index);
    }
  }

  ghost predicate LargeBlock(l: Lists, c: nat) {
    exists b :: b in Blocks(l) && b.size >= Pow2(c)
  }

  predicate LuckyHead(l: Lists, n: nat, c: nat) {
    0 < c <= |l.buckets| && l.buckets[c - 1] != [] && l.buckets[c - 1][0].size >= n
  }

  lemma HitMeans(l: Lists, n: nat, c: nat, i: nat)
    requires Ok(l) && c > 0 && Pow2(c - 1) < n <= Pow2(c)
    requires i < |l.buckets| && l.buckets[i] != [] && l.buckets[i][0].size >= n
    ensures LargeBlock(l, c) || LuckyHead(l, n, c)
  {
    hide Blocks, Pow2;
    var b := l.buckets[i][0];
    assert BucketOk(i, l.buckets[i]) && b in l.buckets[i];
    BlockIn(l, i, 0);
    if i >= c {
      Pow2Monotone(c, i);
    } else if i < c - 1 {
      Pow2Monotone(i + 1, c - 1);
    }
  }

  lemma MissMeans(l: Lists, n: nat, c: nat, i: nat)
    requires Ok(l) && c > 0 && Pow2(c - 1) < n <= Pow2(c)
    requires i < |l.buckets| && forall j :: i < j < |l.buckets| ==> l.buckets[j] == []
    requires i == 0 || (n > Pow2(i) && (l.buckets[i] != [] ==> l.buckets[i][0].size < n))
    ensures !LuckyHead(l, n, c)
  {
    hide Blocks, Pow2;
    BottomBucketEmpty(l);
    if i >= c {
      Pow2Monotone(c, i);
    }
  }

  /** A list holding nothing but one block of at least n bytes serves n when the block's size is a power of two. */
  lemma WholeBlockServes(l: Lists, b: Block, n: nat, k: nat)
    requires Ok(l) && Blocks(l) == {b} && b.size == Pow2(k) && 0 < n <= b.size
    ensures Take(l, n).Taken? && Take(l, n).block == b
  {
    if Take(l, n).Refused? {
      RefusedMeansSmall(l, n);
      if CeilLog2(n) > k {
        Pow2Monotone(k, CeilLog2(n) - 1);
      } else {
        Pow2Monotone(CeilLog2(n), k);
      }
    } else {
      TakenFits(l, n);
    }
  }

  lemma {:induction false} TotalsAppend(xs: seq<seq<Block>>, ys: seq<seq<Block>>, zs: seq<seq<Block>>)
    requires |xs| == |ys| == |zs| && forall i :: 0 <= i < |xs| ==> zs[i] == ys[i] + xs[i]
    ensures TotalCount(zs) == TotalCount(xs) + TotalCount(ys)
    ensures TotalBytes(zs) == TotalBytes(xs) + TotalBytes(ys)
  {
    if xs != [] {
      TotalsAppend(xs[1..], ys[1..], zs[1..]);
      SizeSumAppend(ys[0], xs[0]);
    }
  }

  lemma {:induction false} SizeSumAppend(a: seq<Block>, b: seq<Block>)
    ensures SizeSum(a + b) == SizeSum(a) + SizeSum(b)
  {
    if a == [] {
      assert a + b == b;
    } else {
      assert (a + b)[1..] == a[1..] + b;
      SizeSumAppend(a[1..], b);
    }
  }

  lemma AppendBucket(l: Lists, other: Lists, i: nat)
    requires Ok(l) && Ok(other) && |l.buckets| == |other.buckets| && Blocks(l) !! Blocks(other) && i < |l.buckets|
    ensures BucketOk(i, other.buckets[i] + l.buckets[i]) && NoRepeats(other.buckets[i] + l.buckets[i])
  {
    hide Blocks, Pow2;
    assert BucketOk(i, l.buckets[i]) && BucketOk(i, other.buckets[i]);
    assert NoRepeats(l.buckets[i]) && NoRepeats(other.buckets[i]);
    var both := other.buckets[i] + l.buckets[i];
    forall j, k | 0 <= j < k < |both| ensures both[j] != both[k] {
      var n := |other.buckets[i]|;
      if j < n <= k {
        BlockIn(other, i, j);
        BlockIn(l, i, k - n);
      }
    }
  }

  lemma AppendBlocks(l: Lists, other: Lists)
    requires |l.buckets| == |other.buckets|
    ensures Blocks(Append(l, other)) == Blocks(l) + Blocks(other)
  {
    var m := Append(l, other);
    forall x ensures x in Blocks(m) <==> x in Blocks(l) + Blocks(other) {
      if x in Blocks(l) {
        var k: nat :| k < |l.buckets| && x in l.buckets[k];
        assert x in m.buckets[k];
      }
      if x in Blocks(other) {
        var k: nat :| k < |l.buckets| && x in other.buckets[k];
        assert x in m.buckets[k];
      }
      if x in Blocks(m) {
        var k: nat :| k < |m.buckets| && x in m.buckets[k];
        assert x in other.buckets[k] || x in l.buckets[k];
      }
    }
  }

  /** Appending joins the two lists bucket by bucket. */
  lemma AppendKeeps(l: Lists, other: Lists)
    requires Ok(l) && Ok(other) && |l.buckets| == |other.buckets| && Blocks(l) !! Blocks(other)
    ensures Ok(Append(l, other))
    ensures Blocks(Append(l, other)) == Blocks(l) + Blocks(other)
  {
    hide Blocks, BucketOk, NoRepeats, TotalCount, TotalBytes;
    var m := Append(l, other);
    TotalsAppend(l.buckets, other.buckets, m.buckets);
    AppendBlocks(l, other);
    forall i | 0 <= i < |m.buckets| ensures BucketOk(i, m.buckets[i]) && NoRepeats(m.buckets[i]) {
      AppendBucket(l, other, i);
    }
  }
}

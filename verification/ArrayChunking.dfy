/**
 * Splitting a large array into `<chunk, pow>` mark tasks.
 *
 * A task `<chunk, pow>` stands for the index interval [(chunk - 1) * 2^pow, chunk * 2^pow). The start task
 * of an array cuts a prefix into full chunks and visits the irregular tail itself; a chunk task halves its
 * interval until it is small, leaving the left halves on the queue.
 */
module ArrayChunking {
  import opened Powers

  /** The right edge of the interval of `<chunk, pow>`, which is the left edge of `<chunk + 1, pow>`. */
  function Edge(chunk: nat, pow: nat): nat {
    chunk * Pow2(pow)
  }

  datatype Chunk = Chunk(chunk: nat, pow: nat) {
    function Lo(): nat
      requires chunk >= 1
    {
      Edge(chunk - 1, pow)
    }

    function Hi(): nat { Edge(chunk, pow) }

    /** The ranges the packed word has room for: 10 bits, never zero, and 5 bits. */
    predicate Packable() { 1 <= chunk < CHUNK_LIMIT && pow < 32 }
  }

  /** `MarkTask::chunk_size()`. */
  const CHUNK_LIMIT: nat := 1024
  /** Halving stops at this many elements. */
  const STRIDE: nat := 2048
  /** Arrays up to this length are visited without tasks. */
  const DIRECT_LIMIT: nat := 4096
  /** The largest length whose chunk tasks cover the array. */
  const MAX_CHUNKED: nat := 0x4000_0000

  predicate Splits(chunk: nat, pow: nat) {
    Pow2(pow) > STRIDE && chunk * 2 < CHUNK_LIMIT
  }

  lemma ChunkWidth(c: Chunk)
    requires c.chunk >= 1
    ensures c.Hi() == c.Lo() + Pow2(c.pow)
  {
  }

  lemma MaxChunkedIsPow2()
    ensures Pow2(30) == MAX_CHUNKED && Pow2(31) == 2 * MAX_CHUNKED
  {
    Pow2Sum(15, 15);
    assert Pow2(15) == 0x8000;
  }

  // ---------------------------------------------------------------------------------------------
  // The two splitting loops
  // ---------------------------------------------------------------------------------------------

  /** The tasks pushed while an array of `len` elements is cut, from the loop state `<chunk, pow>` on. */
  function StartTasks(len: nat, chunk: nat, pow: nat): (ts: seq<Chunk>)
    requires chunk >= 1
    ensures |ts| <= pow && forall t :: t in ts ==> t.chunk >= 1 && t.pow < pow
    decreases pow
  {
    if pow == 0 || !Splits(chunk, pow) then []
    else if Edge(2 * chunk - 1, pow - 1) < len then
      [Chunk(2 * chunk - 1, pow - 1)] + StartTasks(len, 2 * chunk, pow - 1)
    else
      StartTasks(len, 2 * chunk - 1, pow - 1)
  }

  /** Where the directly visited tail begins: the right edge of the last pushed task, or `last`. */
  function StartTail(len: nat, chunk: nat, pow: nat, last: nat): nat
    requires chunk >= 1
    decreases pow
  {
    if pow == 0 || !Splits(chunk, pow) then last
    else if Edge(2 * chunk - 1, pow - 1) < len then
      StartTail(len, 2 * chunk, pow - 1, Edge(2 * chunk - 1, pow - 1))
    else
      StartTail(len, 2 * chunk - 1, pow - 1, last)
  }

  /** The tasks pushed while the chunk `<chunk, pow>` is halved. */
  function HalvingTasks(chunk: nat, pow: nat): (ts: seq<Chunk>)
    requires chunk >= 1
    ensures |ts| <= pow && forall t :: t in ts ==> t.chunk >= 1 && t.pow < pow
    decreases pow
  {
    if pow == 0 || !Splits(chunk, pow) then []
    else [Chunk(2 * chunk - 1, pow - 1)] + HalvingTasks(2 * chunk, pow - 1)
  }

  /** The chunk that is left to visit when halving stops. */
  function HalvingRest(chunk: nat, pow: nat): (r: Chunk)
    requires chunk >= 1
    ensures r.chunk >= 1 && r.pow <= pow
    decreases pow
  {
    if pow == 0 || !Splits(chunk, pow) then Chunk(chunk, pow)
    else HalvingRest(2 * chunk, pow - 1)
  }

  // ---------------------------------------------------------------------------------------------
  // Tilings
  // ---------------------------------------------------------------------------------------------

  /** The tasks stand side by side from `lo` to `hi`, and each one can be packed. */
  predicate Tiles(ts: seq<Chunk>, lo: int, hi: int) {
    if ts == [] then lo == hi
    else ts[0].Packable() && ts[0].Lo() == lo && Tiles(ts[1..], ts[0].Hi(), hi)
  }

  lemma {:induction false} DoubleChunk(chunk: nat, pow: nat)
    requires chunk > 0 && pow > 0
    ensures Edge(2 * chunk - 2, pow - 1) == Edge(chunk - 1, pow)
    ensures Edge(2 * chunk, pow - 1) == Edge(chunk, pow)
    ensures Edge(2 * chunk - 2, pow - 1) < Edge(2 * chunk - 1, pow - 1)
  {
    assert Pow2(pow) == 2 * Pow2(pow - 1);
  }

  /** One round of the halving loop. */
  lemma HalvingRound(chunk: nat, pow: nat)
    requires chunk >= 1
    ensures if pow > 0 && Splits(chunk, pow) then
              HalvingTasks(chunk, pow) == [Chunk(2 * chunk - 1, pow - 1)] + HalvingTasks(2 * chunk, pow - 1) &&
              HalvingRest(chunk, pow) == HalvingRest(2 * chunk, pow - 1)
            else HalvingTasks(chunk, pow) == [] && HalvingRest(chunk, pow) == Chunk(chunk, pow)
  {
    hide Splits;
  }

  lemma TilesPrepend(t: Chunk, rest: seq<Chunk>, hi: int)
    requires t.Packable() && Tiles(rest, t.Hi(), hi)
    ensures Tiles([t] + rest, t.Lo(), hi)
  {
    hide Edge;
    assert ([t] + rest)[1..] == rest;
  }

  /** Halving `<chunk, pow>` tiles the interval with the pushed tasks followed by the rest. */
  lemma {:induction false} HalvingTiles(chunk: nat, pow: nat)
    requires 1 <= chunk < CHUNK_LIMIT && pow <= 31
    ensures Tiles(HalvingTasks(chunk, pow), Chunk(chunk, pow).Lo(), HalvingRest(chunk, pow).Lo())
    ensures HalvingRest(chunk, pow).Hi() == Chunk(chunk, pow).Hi()
    ensures HalvingRest(chunk, pow).Packable()
    decreases pow
  {
    hide Pow2, Edge, HalvingTasks, HalvingRest;
    HalvingRound(chunk, pow);
    if pow > 0 && Splits(chunk, pow) {
      hide Tiles;
      DoubleChunk(chunk, pow);
      HalvingTiles(2 * chunk, pow - 1);
      TilesPrepend(Chunk(2 * chunk - 1, pow - 1), HalvingTasks(2 * chunk, pow - 1), HalvingRest(chunk, pow).Lo());
    }
  }

  lemma {:induction false} StartTilesFrom(len: nat, chunk: nat, pow: nat, last: nat)
    requires 1 <= chunk < CHUNK_LIMIT && pow <= 31
    requires last == Edge(chunk - 1, pow) && last < len <= Edge(chunk, pow)
    ensures Tiles(StartTasks(len, chunk, pow), last, StartTail(len, chunk, pow, last))
    ensures last <= StartTail(len, chunk, pow, last) < len
    decreases pow
  {
    hide Pow2, Edge;
    if pow > 0 && Splits(chunk, pow) {
      hide Tiles;
      DoubleChunk(chunk, pow);
      var edge := Edge(2 * chunk - 1, pow - 1);
      if edge < len {
        StartTilesFrom(len, 2 * chunk, pow - 1, edge);
        var tail := StartTail(len, 2 * chunk, pow - 1, edge);
        TilesPrepend(Chunk(2 * chunk - 1, pow - 1), StartTasks(len, 2 * chunk, pow - 1), tail);
      } else {
        StartTilesFrom(len, 2 * chunk - 1, pow - 1, last);
      }
    }
  }

  /** Cutting the prefix of an array tiles [last, tail) and leaves less than one small chunk. */
  lemma StartTiles(len: nat, chunk: nat, pow: nat, last: nat)
    requires 1 <= chunk < CHUNK_LIMIT && pow <= 31
    requires last == Edge(chunk - 1, pow) && last < len <= Edge(chunk, pow)
    ensures Tiles(StartTasks(len, chunk, pow), last, StartTail(len, chunk, pow, last))
    ensures last <= StartTail(len, chunk, pow, last) < len
    ensures forall t :: t in StartTasks(len, chunk, pow) ==> t.Packable() && t.pow < pow && t.Hi() < len
  {
    hide Pow2, Edge, StartTasks, StartTail, Tiles;
    StartTilesFrom(len, chunk, pow, last);
    TilesBounds(StartTasks(len, chunk, pow), last, StartTail(len, chunk, pow, last));
  }

  // ---------------------------------------------------------------------------------------------
  // A whole array
  // ---------------------------------------------------------------------------------------------

  /** What handling the array's own task leaves behind: queued tasks and a tail visited on the spot. */
  datatype Plan = Panic | Plan(tasks: seq<Chunk>, tail: nat)

  /** The exponent that covers the array in excess. */
  function CoverBits(len: nat): nat
    requires len > 0
  {
    var bits := FloorLog2(len);
    if len != Pow2(bits) then bits + 1 else bits
  }

  lemma CoverBitsBracket(len: nat)
    requires len > 1
    ensures CoverBits(len) >= 1 && Pow2(CoverBits(len) - 1) < len <= Pow2(CoverBits(len))
  {
  }

  /** `do_chunked_array_start` for an array that has an element visitor. */
  function ArrayPlan(len: nat): Plan {
    if len <= DIRECT_LIMIT then Plan([], 0)
    else
      var bits := CoverBits(len);
      if bits > 31 then Panic
      else if bits == 31 then
        Plan([Chunk(2, 30)] + StartTasks(len, 2, 30), StartTail(len, 2, 30, Pow2(30)))
      else
        Plan(StartTasks(len, 1, bits), StartTail(len, 1, bits, 0))
  }

  function Once(lo: int, i: int, hi: int): nat {
    if lo <= i < hi then 1 else 0
  }

  /** How often index `i` is visited by a chunk task and by every task it leads to. */
  function ChunkVisits(c: Chunk, i: int): nat
    requires c.chunk >= 1
    decreases c.pow
  {
    var rest := HalvingRest(c.chunk, c.pow);
    TaskVisits(HalvingTasks(c.chunk, c.pow), i, c.pow) + Once(rest.Lo(), i, rest.Hi())
  }

  function TaskVisits(ts: seq<Chunk>, i: int, bound: nat): nat
    requires forall t :: t in ts ==> t.chunk >= 1 && t.pow < bound
    decreases bound, |ts|
  {
    if ts == [] then 0 else ChunkVisits(ts[0], i) + TaskVisits(ts[1..], i, bound)
  }

  /** How often index `i` of an array is visited in all. */
  function ArrayVisits(len: nat, i: int): nat
    requires ArrayPlan(len).Plan?
  {
    var plan := ArrayPlan(len);
    assert forall t :: t in plan.tasks ==> t.chunk >= 1 && t.pow < 32;
    TaskVisits(plan.tasks, i, 32) + Once(plan.tail, i, len)
  }

  lemma {:induction false} ChunkVisitsExact(c: Chunk, i: int)
    requires c.Packable()
    ensures ChunkVisits(c, i) == Once(c.Lo(), i, c.Hi())
    decreases c.pow
  {
    var rest := HalvingRest(c.chunk, c.pow);
    HalvingTiles(c.chunk, c.pow);
    ChunkWidth(rest);
    TaskVisitsExact(HalvingTasks(c.chunk, c.pow), c.Lo(), HalvingRest(c.chunk, c.pow).Lo(), i, c.pow);
  }

  lemma {:induction false} TaskVisitsExact(ts: seq<Chunk>, lo: int, hi: int, i: int, bound: nat)
    requires Tiles(ts, lo, hi)
    requires forall t :: t in ts ==> t.chunk >= 1 && t.pow < bound
    ensures lo <= hi
    ensures TaskVisits(ts, i, bound) == Once(lo, i, hi)
    decreases bound, |ts|
  {
    if ts != [] {
      var t := ts[0];
      ChunkWidth(t);
      ChunkVisitsExact(t, i);
      TaskVisitsExact(ts[1..], t.Hi(), hi, i, bound);
    }
  }

  /** The plan of an array that is not too long: packable tasks that tile a prefix, then a direct tail. */
  lemma PlanTiles(len: nat)
    requires len <= MAX_CHUNKED
    ensures ArrayPlan(len).Plan?
    ensures Tiles(ArrayPlan(len).tasks, 0, ArrayPlan(len).tail) && ArrayPlan(len).tail <= len
    ensures forall t :: t in ArrayPlan(len).tasks ==> t.Packable() && t.pow < 30 && t.Hi() < len
  {
    if len > DIRECT_LIMIT {
      CoverBitsBracket(len);
      var bits := CoverBits(len);
      MaxChunkedIsPow2();
      if bits > 30 {
        Pow2Monotone(30, bits - 1);
      }
      StartTiles(len, 1, bits, 0);
    }
  }

  /** Past 2^30 elements the array is still split up to twice that length; beyond, the assertion fails. */
  lemma LongArrayPlanIff(len: nat)
    requires len > MAX_CHUNKED
    ensures ArrayPlan(len).Plan? <==> len <= 2 * MAX_CHUNKED
  {
    CoverBitsBracket(len);
    var bits := CoverBits(len);
    MaxChunkedIsPow2();
    hide Pow2, CoverBits, StartTasks, StartTail;
    if bits <= 30 {
      Pow2Monotone(bits, 30);
    } else if bits >= 32 {
      Pow2Monotone(31, bits - 1);
    }
  }

  /** The shortest array that loses its first 2^30 elements. */
  lemma MissedPrefixHappens(len: nat, i: nat)
    requires len == MAX_CHUNKED + 1 && i < MAX_CHUNKED
    ensures ArrayPlan(len).Plan? && ArrayVisits(len, i) == 0
  {
    hide ArrayPlan, ArrayVisits;
    LongArrayPlanIff(len);
    LongArrayMissesPrefix(len, i);
  }

  lemma LongPlanIs(len: nat)
    requires MAX_CHUNKED < len <= 2 * MAX_CHUNKED
    ensures ArrayPlan(len) == Plan([Chunk(2, 30)] + StartTasks(len, 2, 30), StartTail(len, 2, 30, Pow2(30)))
  {
    CoverBitsBracket(len);
    MaxChunkedIsPow2();
    hide Pow2, CoverBits, StartTasks, StartTail;
    var bits := CoverBits(len);
    if bits <= 30 {
      Pow2Monotone(bits, 30);
    } else if bits >= 32 {
      Pow2Monotone(31, bits - 1);
    }
  }

  lemma VisitsOfFirst(t: Chunk, rest: seq<Chunk>, i: int)
    requires t.chunk >= 1 && t.pow < 32 && forall u :: u in rest ==> u.chunk >= 1 && u.pow < 32
    ensures TaskVisits([t] + rest, i, 32) == ChunkVisits(t, i) + TaskVisits(rest, i, 32)
  {
    hide ChunkVisits;
    assert ([t] + rest)[1..] == rest;
  }

  /** The tasks of a long array all lie behind its first 2^30 elements. */
  lemma LongTasksMiss(len: nat, i: nat)
    requires MAX_CHUNKED < len <= 2 * MAX_CHUNKED && i < MAX_CHUNKED
    ensures var rest := StartTasks(len, 2, 30);
            (forall u :: u in rest ==> u.chunk >= 1 && u.pow < 32) &&
            TaskVisits([Chunk(2, 30)] + rest, i, 32) == 0 && MAX_CHUNKED <= StartTail(len, 2, 30, Pow2(30))
  {
    MaxChunkedIsPow2();
    assert Edge(1, 30) == MAX_CHUNKED && Edge(2, 30) == 2 * MAX_CHUNKED;
    hide Pow2, Edge, StartTasks, StartTail, ChunkVisits, TaskVisits;
    StartTiles(len, 2, 30, Pow2(30));
    var rest := StartTasks(len, 2, 30);
    TaskVisitsExact(rest, Pow2(30), StartTail(len, 2, 30, Pow2(30)), i, 32);
    ChunkVisitsExact(Chunk(2, 30), i);
    VisitsOfFirst(Chunk(2, 30), rest, i);
  }

  /** From 2^30 + 1 to 2^31 elements the first 2^30 of them are never visited. */
  lemma LongArrayMissesPrefix(len: nat, i: nat)
    requires MAX_CHUNKED < len <= 2 * MAX_CHUNKED && i < MAX_CHUNKED
    ensures ArrayPlan(len).Plan? && ArrayVisits(len, i) == 0
  {
    hide Pow2, ArrayPlan, StartTasks, StartTail, TaskVisits;
    LongPlanIs(len);
    LongTasksMiss(len, i);
  }

  ghost predicate VisitedExactlyOnce(len: nat) {
    ArrayPlan(len).Plan? &&
    forall i: int :: ArrayVisits(len, i) == Once(0, i, len)
  }

  /**
   * Every index of the array is visited exactly once, and nothing outside it, precisely for the lengths up
   * to 2^30. A longer array either loses its first 2^30 elements or trips the `pow == 31` assertion.
   */
  lemma ChunkingExactIff(len: nat)
    ensures VisitedExactlyOnce(len) <==> len <= MAX_CHUNKED
  {
    if len <= MAX_CHUNKED {
      PlanTiles(len);
      var plan := ArrayPlan(len);
      forall i: int
        ensures ArrayVisits(len, i) == Once(0, i, len)
      {
        TaskVisitsExact(plan.tasks, 0, plan.tail, i, 32);
      }
    } else if ArrayPlan(len).Plan? {
      LongArrayPlanIff(len);
      LongArrayMissesPrefix(len, 0);
      assert ArrayVisits(len, 0) != Once(0, 0, len);
    }
  }

  // ---------------------------------------------------------------------------------------------
  // The loops themselves
  // ---------------------------------------------------------------------------------------------

  /** The splitting loop of `do_chunked_array_start`, from a given loop state. */
  method CutPrefix(len: nat, chunk0: nat, pow0: nat, last: nat) returns (pushed: seq<Chunk>, from: nat)
    requires chunk0 >= 1
    ensures pushed == StartTasks(len, chunk0, pow0)
    ensures from == StartTail(len, chunk0, pow0, last)
  {
    var chunk: nat, pow: nat := chunk0, pow0;
    pushed, from := [], last;
    while pow > 0 && Splits(chunk, pow)
      invariant chunk >= 1
      invariant pushed + StartTasks(len, chunk, pow) == StartTasks(len, chunk0, pow0)
      invariant StartTail(len, chunk, pow, from) == StartTail(len, chunk0, pow0, last)
      decreases pow
    {
      pow := pow - 1;
      var leftChunk: nat, rightChunk: nat := 2 * chunk - 1, 2 * chunk;
      var leftChunkEnd := Edge(leftChunk, pow);
      if leftChunkEnd < len {
        var left := Chunk(leftChunk, pow);
        assert pushed + ([left] + StartTasks(len, rightChunk, pow)) ==
               pushed + [left] + StartTasks(len, rightChunk, pow);
        pushed := pushed + [left];
        chunk := rightChunk;
        from := leftChunkEnd;
      } else {
        chunk := leftChunk;
      }
    }
  }

  /** The body of `do_chunked_array_start` after the header was traced. */
  method DoChunkedArrayStart(len: nat) returns (plan: Plan)
    ensures plan == ArrayPlan(len)
    ensures len <= MAX_CHUNKED ==> plan.Plan? && Tiles(plan.tasks, 0, plan.tail) && plan.tail <= len
  {
    if len <= DIRECT_LIMIT {
      return Plan([], 0);
    }
    var bits := FloorLog2(len);
    if len != Pow2(bits) {
      bits := bits + 1;
    }
    if bits >= 31 {
      if bits != 31 {
        plan := Panic;
      } else {
        var pushed, from := CutPrefix(len, 2, 30, Pow2(30));
        plan := Plan([Chunk(2, 30)] + pushed, from);
      }
    } else {
      var pushed, from := CutPrefix(len, 1, bits, 0);
      plan := Plan(pushed, from);
    }
    assert plan == ArrayPlan(len);
    if len <= MAX_CHUNKED {
      PlanTiles(len);
    }
  }

  /** The body of `do_chunked_array`: what it queues, and the range it visits itself. */
  method DoChunkedArray(task: Chunk) returns (pushed: seq<Chunk>, from: nat, to: nat)
    requires task.Packable()
    ensures pushed == HalvingTasks(task.chunk, task.pow)
    ensures from == HalvingRest(task.chunk, task.pow).Lo()
    ensures to == task.Hi()
  {
    hide Pow2, Edge, Splits, HalvingTasks, HalvingRest;
    var chunk: nat, pow: nat := task.chunk, task.pow;
    pushed := [];
    while pow > 0 && Splits(chunk, pow)
      invariant chunk >= 1
      invariant HalvingTasks(task.chunk, task.pow) == pushed + HalvingTasks(chunk, pow)
      invariant HalvingRest(task.chunk, task.pow) == HalvingRest(chunk, pow)
      decreases pow
    {
      HalvingRound(chunk, pow);
      var left := Chunk(2 * chunk - 1, pow - 1);
      ghost var rest := HalvingTasks(2 * chunk, pow - 1);
      assert pushed + ([left] + rest) == pushed + [left] + rest;
      pow := pow - 1;
      chunk := 2 * chunk;
      pushed := pushed + [left];
    }
    HalvingRound(chunk, pow);
    assert pushed + [] == pushed;
    from, to := Edge(chunk - 1, pow), Edge(chunk, pow);
    HalvingTiles(task.chunk, task.pow);
  }

  /**
   * Every bound computed for a chunk task that ends at or below 2^30 fits a signed 32-bit integer, and every task it
   * pushes is such a task again. The tasks of an array of up to 2^30 elements are of this kind, so all tasks they
   * ever lead to are.
   */
  lemma BoundsFitI32(t: Chunk)
    requires t.Packable() && t.Hi() <= MAX_CHUNKED
    ensures t.Lo() < t.Hi() < 0x8000_0000
    ensures forall u :: u in HalvingTasks(t.chunk, t.pow) ==>
              u.Packable() && t.Lo() <= u.Lo() < u.Hi() <= t.Hi() && u.Hi() <= MAX_CHUNKED
    ensures var rest := HalvingRest(t.chunk, t.pow);
            rest.Packable() && t.Lo() <= rest.Lo() < rest.Hi() == t.Hi()
  {
    ChunkWidth(t);
    HalvingTiles(t.chunk, t.pow);
    ChunkWidth(HalvingRest(t.chunk, t.pow));
    TilesBounds(HalvingTasks(t.chunk, t.pow), t.Lo(), HalvingRest(t.chunk, t.pow).Lo());
  }

  lemma {:induction false} TilesBounds(ts: seq<Chunk>, lo: int, hi: int)
    requires Tiles(ts, lo, hi)
    ensures lo <= hi
    ensures forall t :: t in ts ==> t.Packable() && lo <= t.Lo() < t.Hi() <= hi
  {
    if ts != [] {
      ChunkWidth(ts[0]);
      TilesBounds(ts[1..], ts[0].Hi(), hi);
    }
  }
}

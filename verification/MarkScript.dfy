/** What processing one mark task does, as a script of visits and pushes, and what each item is answerable for. */
module MarkScript {
  import opened Powers
  import opened ArrayChunking
  import opened HeapGraph

  datatype Task = ObjTask(obj: nat) | ChunkTask(obj: nat, c: Chunk)

  /**
   * `Visit` marks the target of a slot and pushes it if it was unmarked; `Push` hands a task to the visitor's
   * queues; `Spill(n)` moves local tasks to the injector until `n` are left.
   */
  datatype Action = Visit(slot: Slot) | Push(task: Task) | Spill(target: nat)

  predicate TaskOk(h: Heap, t: Task) {
    t.obj < |h| && (t.ChunkTask? ==> t.c.Packable() && t.c.Hi() <= |h[t.obj].Elems()|)
  }

  predicate ActionOk(h: Heap, a: Action) {
    match a
    case Visit(s) => s.Ref? && ValidSlot(h, s)
    case Push(t) => TaskOk(h, t)
    case Spill(_) => true
  }

  predicate TasksOk(h: Heap, ts: seq<Task>) {
    forall t :: t in ts ==> TaskOk(h, t)
  }

  predicate ScriptOk(h: Heap, acts: seq<Action>) {
    forall a :: a in acts ==> ActionOk(h, a)
  }

  // ---------------------------------------------------------------------------------------------
  // Scripts
  // ---------------------------------------------------------------------------------------------

  function PartVisits(o: nat, part: int, n: nat): seq<Action> {
    if n == 0 then [] else PartVisits(o, part, n - 1) + [Visit(Ref(o, part, n - 1))]
  }

  /** The element visitor on [lo, hi). */
  function RangeVisits(h: Heap, o: nat, lo: int, hi: int): seq<Action>
    requires o < |h|
    decreases hi - lo
  {
    if lo >= hi then []
    else PartVisits(o, lo, |Part(h, o, lo)|) + RangeVisits(h, o, lo + 1, hi)
  }

  function ChunkPushes(o: nat, cs: seq<Chunk>): seq<Action> {
    if cs == [] then [] else [Push(ChunkTask(o, cs[0]))] + ChunkPushes(o, cs[1..])
  }

  /** `MarkingTask::do_task`. An array too long to be chunked has no plan; well-formed heaps have none. */
  function Script(h: Heap, t: Task): seq<Action>
    requires TaskOk(h, t)
  {
    match t
    case ObjTask(o) =>
      var trace := PartVisits(o, -1, |h[o].Fields()|);
      if h[o].Fixed? then trace
      else
        var len := |h[o].Elems()|;
        var plan := ArrayPlan(len);
        if plan.Panic? then trace
        else trace + ChunkPushes(o, plan.tasks) + RangeVisits(h, o, plan.tail, len)
    case ChunkTask(o, c) =>
      var rest := HalvingRest(c.chunk, c.pow);
      ChunkPushes(o, HalvingTasks(c.chunk, c.pow)) + RangeVisits(h, o, rest.Lo(), rest.Hi())
  }

  // ---------------------------------------------------------------------------------------------
  // Responsibility: which slots a task, an action or a queue still has to visit
  // ---------------------------------------------------------------------------------------------

  predicate TaskCovers(h: Heap, t: Task, s: Slot) {
    ValidSlot(h, s) && s.obj == t.obj &&
    (t.ChunkTask? ==> s.Ref? && t.c.chunk >= 1 && t.c.Lo() <= s.part < t.c.Hi())
  }

  predicate ActionCovers(h: Heap, a: Action, s: Slot) {
    match a
    case Visit(v) => v == s
    case Push(t) => TaskCovers(h, t, s)
    case Spill(_) => false
  }

  function Bit(b: bool): nat { if b then 1 else 0 }

  function TaskCount(h: Heap, ts: seq<Task>, s: Slot): nat {
    if ts == [] then 0 else TaskCount(h, ts[..|ts| - 1], s) + Bit(TaskCovers(h, ts[|ts| - 1], s))
  }

  function ScriptCount(h: Heap, acts: seq<Action>, s: Slot): nat {
    if acts == [] then 0 else Bit(ActionCovers(h, acts[0], s)) + ScriptCount(h, acts[1..], s)
  }

  lemma {:induction false} TaskCountConcat(h: Heap, a: seq<Task>, b: seq<Task>, s: Slot)
    ensures TaskCount(h, a + b, s) == TaskCount(h, a, s) + TaskCount(h, b, s)
  {
    if b == [] {
      assert a + b == a;
    } else {
      var m := |b| - 1;
      assert (a + b)[..|a + b| - 1] == a + b[..m];
      TaskCountConcat(h, a, b[..m], s);
    }
  }

  lemma {:induction false} ScriptCountConcat(h: Heap, a: seq<Action>, b: seq<Action>, s: Slot)
    ensures ScriptCount(h, a + b, s) == ScriptCount(h, a, s) + ScriptCount(h, b, s)
  {
    if a == [] {
      assert a + b == b;
    } else {
      assert (a + b)[1..] == a[1..] + b;
      ScriptCountConcat(h, a[1..], b, s);
    }
  }

  lemma {:induction false} PartVisitsCount(h: Heap, o: nat, part: int, n: nat, s: Slot)
    requires o < |h| && n <= |Part(h, o, part)|
    ensures ScriptOk(h, PartVisits(o, part, n))
    ensures ScriptCount(h, PartVisits(o, part, n), s) == Bit(s.Ref? && s.obj == o && s.part == part && s.k < n)
  {
    if n > 0 {
      var last := [Visit(Ref(o, part, n - 1))];
      PartVisitsCount(h, o, part, n - 1, s);
      ScriptCountConcat(h, PartVisits(o, part, n - 1), last, s);
      assert last[1..] == [] && ScriptCount(h, last, s) == Bit(ActionCovers(h, last[0], s));
    }
  }

  /** A slot of the elements [lo, hi) lies in element lo or behind it. */
  lemma RangeBit(h: Heap, o: nat, lo: int, hi: int, s: Slot)
    requires o < |h| && 0 <= lo < hi <= |h[o].Elems()|
    ensures Bit(s.Ref? && ValidSlot(h, s) && s.obj == o && lo <= s.part < hi) ==
            Bit(s.Ref? && s.obj == o && s.part == lo && s.k < |Part(h, o, lo)|) +
            Bit(s.Ref? && ValidSlot(h, s) && s.obj == o && lo + 1 <= s.part < hi)
  {
  }

  lemma {:induction false} RangeVisitsCount(h: Heap, o: nat, lo: int, hi: int, s: Slot)
    requires o < |h| && 0 <= lo && hi <= |h[o].Elems()|
    ensures ScriptOk(h, RangeVisits(h, o, lo, hi))
    ensures ScriptCount(h, RangeVisits(h, o, lo, hi), s) ==
            Bit(s.Ref? && ValidSlot(h, s) && s.obj == o && lo <= s.part < hi)
    decreases hi - lo
  {
    hide ScriptCount, ScriptOk, PartVisits, ValidSlot, Part, RangeVisits, Refs;
    RangeUnfolds(h, o, lo, hi);
    if lo < hi {
      RangeBit(h, o, lo, hi, s);
      PartVisitsCount(h, o, lo, |Part(h, o, lo)|, s);
      RangeVisitsCount(h, o, lo + 1, hi, s);
      ScriptCountConcat(h, PartVisits(o, lo, |Part(h, o, lo)|), RangeVisits(h, o, lo + 1, hi), s);
      OkConcat(h, PartVisits(o, lo, |Part(h, o, lo)|), RangeVisits(h, o, lo + 1, hi));
    } else {
      NothingToDo(h);
    }
  }

  lemma {:induction false} ChunkPushesCount(h: Heap, o: nat, cs: seq<Chunk>, lo: nat, hi: nat, s: Slot)
    requires o < |h| && Tiles(cs, lo, hi) && hi <= |h[o].Elems()|
    ensures lo <= hi && ScriptOk(h, ChunkPushes(o, cs))
    ensures ScriptCount(h, ChunkPushes(o, cs), s) ==
            Bit(s.Ref? && ValidSlot(h, s) && s.obj == o && lo <= s.part < hi)
  {
    TilesBounds(cs, lo, hi);
    if cs != [] {
      var first := cs[0];
      ChunkPushesCount(h, o, cs[1..], first.Hi(), hi, s);
      assert ChunkPushes(o, cs)[1..] == ChunkPushes(o, cs[1..]);
      assert TaskCovers(h, ChunkTask(o, first), s) <==>
             s.Ref? && ValidSlot(h, s) && s.obj == o && lo <= s.part < first.Hi();
    }
  }

  /** Processing a task visits or delegates each slot it answers for exactly once, and no other slot. */
  lemma ScriptExact(h: Heap, t: Task, s: Slot)
    requires WellFormed(h) && TaskOk(h, t)
    ensures ScriptOk(h, Script(h, t))
    ensures ScriptCount(h, Script(h, t), s) == Bit(s.Ref? && TaskCovers(h, t, s))
  {
    match t
    case ObjTask(o) =>
      var trace := PartVisits(o, -1, |h[o].Fields()|);
      PartVisitsCount(h, o, -1, |h[o].Fields()|, s);
      if h[o].VarSize? {
        var len := |h[o].Elems()|;
        PlanTiles(len);
        var plan := ArrayPlan(len);
        var pushes, visits := ChunkPushes(o, plan.tasks), RangeVisits(h, o, plan.tail, len);
        ChunkPushesCount(h, o, plan.tasks, 0, plan.tail, s);
        RangeVisitsCount(h, o, plan.tail, len, s);
        ScriptCountConcat(h, trace, pushes, s);
        ScriptCountConcat(h, trace + pushes, visits, s);
      }
    case ChunkTask(o, c) =>
      var rest, halves := HalvingRest(c.chunk, c.pow), HalvingTasks(c.chunk, c.pow);
      HalvingTiles(c.chunk, c.pow);
      ChunkWidth(rest);
      ChunkPushesCount(h, o, halves, c.Lo(), rest.Lo(), s);
      RangeVisitsCount(h, o, rest.Lo(), rest.Hi(), s);
      ScriptCountConcat(h, ChunkPushes(o, halves), RangeVisits(h, o, rest.Lo(), rest.Hi()), s);
  }

  // ---------------------------------------------------------------------------------------------
  // Weight: an upper bound on the steps an item can still cause
  // ---------------------------------------------------------------------------------------------

  /** The number of pointers in the elements [lo, hi). */
  function Refs(h: Heap, o: nat, lo: int, hi: int): nat
    requires o < |h|
    decreases hi - lo
  {
    if lo >= hi then 0 else |Part(h, o, lo)| + Refs(h, o, lo + 1, hi)
  }

  lemma {:induction false} RefsSplit(h: Heap, o: nat, lo: int, mid: int, hi: int)
    requires o < |h| && lo <= mid <= hi
    ensures Refs(h, o, lo, hi) == Refs(h, o, lo, mid) + Refs(h, o, mid, hi)
    decreases mid - lo
  {
    if lo < mid {
      RefsSplit(h, o, lo + 1, mid, hi);
    }
  }

  function TaskWeight(h: Heap, t: Task): nat
    requires TaskOk(h, t)
  {
    match t
    case ObjTask(o) =>
      var len := |h[o].Elems()|;
      200 + |h[o].Fields()| + 100 * len + Refs(h, o, 0, len)
    case ChunkTask(o, c) =>
      100 * Pow2(c.pow) + Refs(h, o, c.Lo(), c.Hi())
  }

  function ActionWeight(h: Heap, a: Action): nat
    requires ActionOk(h, a)
  {
    match a
    case Visit(_) => 1
    case Push(t) => TaskWeight(h, t) + 3
    case Spill(_) => 1
  }

  function ScriptWeight(h: Heap, acts: seq<Action>): nat
    requires ScriptOk(h, acts)
  {
    if acts == [] then 0 else ActionWeight(h, acts[0]) + ScriptWeight(h, acts[1..])
  }

  /** The weight of a queue, with `extra` per task. */
  function TasksWeight(h: Heap, ts: seq<Task>, extra: nat): nat
    requires TasksOk(h, ts)
  {
    if ts == [] then 0
    else TasksWeight(h, ts[..|ts| - 1], extra) + TaskWeight(h, ts[|ts| - 1]) + extra
  }

  lemma {:induction false} TasksWeightConcat(h: Heap, a: seq<Task>, b: seq<Task>, extra: nat)
    requires TasksOk(h, a) && TasksOk(h, b)
    ensures TasksOk(h, a + b)
    ensures TasksWeight(h, a + b, extra) == TasksWeight(h, a, extra) + TasksWeight(h, b, extra)
  {
    hide TaskWeight, TaskOk;
    if b == [] {
      assert a + b == a;
    } else {
      var m := |b| - 1;
      assert (a + b)[..|a + b| - 1] == a + b[..m];
      TasksWeightConcat(h, a, b[..m], extra);
    }
  }

  lemma {:induction false} ScriptWeightConcat(h: Heap, a: seq<Action>, b: seq<Action>)
    requires ScriptOk(h, a) && ScriptOk(h, b)
    ensures ScriptOk(h, a + b)
    ensures ScriptWeight(h, a + b) == ScriptWeight(h, a) + ScriptWeight(h, b)
  {
    if a == [] {
      assert a + b == b;
    } else {
      assert (a + b)[1..] == a[1..] + b;
      ScriptWeightConcat(h, a[1..], b);
    }
  }

  lemma {:induction false} PartVisitsWeight(h: Heap, o: nat, part: int, n: nat)
    requires o < |h| && n <= |Part(h, o, part)|
    ensures ScriptOk(h, PartVisits(o, part, n)) && ScriptWeight(h, PartVisits(o, part, n)) == n
  {
    if n > 0 {
      var last := [Visit(Ref(o, part, n - 1))];
      PartVisitsWeight(h, o, part, n - 1);
      ScriptWeightConcat(h, PartVisits(o, part, n - 1), last);
      assert last[1..] == [] && ScriptWeight(h, last) == 1;
    }
  }

  lemma {:induction false} RangeVisitsWeight(h: Heap, o: nat, lo: int, hi: int)
    requires o < |h| && 0 <= lo && hi <= |h[o].Elems()|
    ensures ScriptOk(h, RangeVisits(h, o, lo, hi))
    ensures ScriptWeight(h, RangeVisits(h, o, lo, hi)) == Refs(h, o, lo, hi)
    decreases hi - lo
  {
    hide ScriptWeight, ScriptOk, PartVisits, Part, RangeVisits, Refs;
    RangeUnfolds(h, o, lo, hi);
    if lo < hi {
      PartVisitsWeight(h, o, lo, |Part(h, o, lo)|);
      RangeVisitsWeight(h, o, lo + 1, hi);
      ScriptWeightConcat(h, PartVisits(o, lo, |Part(h, o, lo)|), RangeVisits(h, o, lo + 1, hi));
    } else {
      NothingToDo(h);
    }
  }

  lemma OkConcat(h: Heap, a: seq<Action>, b: seq<Action>)
    requires ScriptOk(h, a) && ScriptOk(h, b)
    ensures ScriptOk(h, a + b)
  {
    hide ActionOk;
  }

  lemma NothingToDo(h: Heap)
    ensures ScriptOk(h, []) && ScriptWeight(h, []) == 0 && forall s :: ScriptCount(h, [], s) == 0
  {
  }

  lemma RangeUnfolds(h: Heap, o: nat, lo: int, hi: int)
    requires o < |h|
    ensures if lo < hi
            then RangeVisits(h, o, lo, hi) == PartVisits(o, lo, |Part(h, o, lo)|) + RangeVisits(h, o, lo + 1, hi) &&
                 Refs(h, o, lo, hi) == |Part(h, o, lo)| + Refs(h, o, lo + 1, hi)
            else RangeVisits(h, o, lo, hi) == [] && Refs(h, o, lo, hi) == 0
  {
    hide PartVisits, Part;
  }

  lemma {:induction false} ChunkPushesWeight(h: Heap, o: nat, cs: seq<Chunk>, lo: nat, hi: nat)
    requires o < |h| && Tiles(cs, lo, hi) && hi <= |h[o].Elems()|
    ensures lo <= hi && ScriptOk(h, ChunkPushes(o, cs))
    ensures ScriptWeight(h, ChunkPushes(o, cs)) == 100 * (hi - lo) + Refs(h, o, lo, hi) + 3 * |cs|
  {
    TilesBounds(cs, lo, hi);
    if cs != [] {
      var first := cs[0];
      ChunkPushesWeight(h, o, cs[1..], first.Hi(), hi);
      assert ChunkPushes(o, cs)[1..] == ChunkPushes(o, cs[1..]);
      ChunkWidth(first);
      RefsSplit(h, o, lo, first.Hi(), hi);
    }
  }

  /** A task outweighs its script by two: one step to pop it, one to finish it. */
  lemma ScriptLighter(h: Heap, t: Task)
    requires WellFormed(h) && TaskOk(h, t)
    ensures ScriptOk(h, Script(h, t))
    ensures ScriptWeight(h, Script(h, t)) + 2 <= TaskWeight(h, t)
  {
    match t
    case ObjTask(o) =>
      var trace := PartVisits(o, -1, |h[o].Fields()|);
      PartVisitsWeight(h, o, -1, |h[o].Fields()|);
      if h[o].VarSize? {
        var len := |h[o].Elems()|;
        PlanTiles(len);
        var plan := ArrayPlan(len);
        var pushes, visits := ChunkPushes(o, plan.tasks), RangeVisits(h, o, plan.tail, len);
        PlanSize(len);
        ChunkPushesWeight(h, o, plan.tasks, 0, plan.tail);
        RangeVisitsWeight(h, o, plan.tail, len);
        ScriptWeightConcat(h, trace, pushes);
        ScriptWeightConcat(h, trace + pushes, visits);
        RefsSplit(h, o, 0, plan.tail, len);
      }
    case ChunkTask(o, c) =>
      var rest, halves := HalvingRest(c.chunk, c.pow), HalvingTasks(c.chunk, c.pow);
      HalvingTiles(c.chunk, c.pow);
      ChunkWidth(rest);
      ChunkWidth(c);
      ChunkPushesWeight(h, o, halves, c.Lo(), rest.Lo());
      RangeVisitsWeight(h, o, rest.Lo(), rest.Hi());
      ScriptWeightConcat(h, ChunkPushes(o, halves), RangeVisits(h, o, rest.Lo(), rest.Hi()));
      RefsSplit(h, o, c.Lo(), rest.Lo(), c.Hi());
  }

  lemma PlanSize(len: nat)
    requires len <= MAX_CHUNKED
    ensures ArrayPlan(len).Plan? && |ArrayPlan(len).tasks| <= 31
  {
    PlanTiles(len);
  }
}

/** The object graph as the marker walks it, and reachability in it. */
module HeapGraph {
  import opened ArrayChunking

  /**
   * What a vtable lets the marker find. `Fixed` objects are skipped when their header says they hold no heap
   * pointers; the elements of a `VarSize` object are visited only when its type has an element visitor.
   */
  datatype Shape =
    | Fixed(noHeapPtrs: bool, fields: seq<nat>)
    | VarSize(fields: seq<nat>, traced: bool, elems: seq<seq<nat>>)
  {
    function Fields(): seq<nat> {
      if Fixed? && noHeapPtrs then [] else fields
    }

    function Elems(): seq<seq<nat>> {
      if VarSize? && traced then elems else []
    }
  }

  /** Objects are named by their position. */
  type Heap = seq<Shape>

  /**
   * The units of marking work. `Scan` is the processing of an object's own task; `Ref(obj, part, k)` is the
   * k-th pointer of element `part`, with part -1 for the pointers outside the elements.
   */
  datatype Slot = Scan(obj: nat) | Ref(obj: nat, part: int, k: nat)

  function Part(h: Heap, o: nat, part: int): seq<nat>
    requires o < |h|
  {
    if part == -1 then h[o].Fields()
    else if 0 <= part < |h[o].Elems()| then h[o].Elems()[part]
    else []
  }

  predicate ValidSlot(h: Heap, s: Slot) {
    s.obj < |h| && (s.Ref? ==> s.k < |Part(h, s.obj, s.part)|)
  }

  function Target(h: Heap, s: Slot): nat
    requires ValidSlot(h, s) && s.Ref?
  {
    Part(h, s.obj, s.part)[s.k]
  }

  /** Every pointer leads to an object, and no array is longer than chunking can cover. */
  ghost predicate WellFormed(h: Heap) {
    (forall s: Slot :: ValidSlot(h, s) && s.Ref? ==> Target(h, s) < |h|) &&
    (forall o :: 0 <= o < |h| ==> |h[o].Elems()| <= MAX_CHUNKED)
  }

  /** A chain of pointers from a root to `o`. */
  predicate PathTo(h: Heap, roots: set<nat>, path: seq<Slot>, o: nat)
    decreases |path|
  {
    if path == [] then o in roots && o < |h|
    else
      var last := path[|path| - 1];
      last.Ref? && ValidSlot(h, last) && Target(h, last) == o && PathTo(h, roots, path[..|path| - 1], last.obj)
  }

  ghost predicate Reachable(h: Heap, roots: set<nat>, o: nat) {
    exists path :: PathTo(h, roots, path, o)
  }

  lemma ReachableStep(h: Heap, roots: set<nat>, s: Slot)
    requires s.Ref? && ValidSlot(h, s) && Reachable(h, roots, s.obj)
    ensures Reachable(h, roots, Target(h, s))
  {
    var path :| PathTo(h, roots, path, s.obj);
    assert (path + [s])[..|path|] == path;
    assert PathTo(h, roots, path + [s], Target(h, s));
  }

  /** A set that holds the roots and is closed under pointers holds everything reachable. */
  lemma {:induction false} ClosedHoldsPath(h: Heap, roots: set<nat>, closed: set<nat>, path: seq<Slot>, o: nat)
    requires PathTo(h, roots, path, o)
    requires forall r :: r in roots && r < |h| ==> r in closed
    requires forall s: Slot :: ValidSlot(h, s) && s.Ref? && s.obj in closed ==> Target(h, s) in closed
    ensures o in closed
    decreases |path|
  {
    if path != [] {
      ClosedHoldsPath(h, roots, closed, path[..|path| - 1], path[|path| - 1].obj);
    }
  }
}

/**
 * `atomic_test_and_set` under interference: any number of callers on one bitmap, one step per access to a cell. The
 * compare-and-swap is the weak one, which may fail although the cell holds the expected value.
 */
module BitmapRace {
  import opened Bitmap

  /** A caller between calls, or in the loop for granule g with the value it has seen last. */
  datatype Caller = Idle | Trying(g: nat, seen: bv8)

  /** `won` and `lost` collect the granules for which calls have answered true and false. */
  datatype State = State(cells: seq<bv8>, callers: seq<Caller>, won: multiset<nat>, lost: multiset<nat>)

  datatype Step =
    | Load(w: nat, granule: nat)
    | GiveUp(w: nat)
    | Exchange(w: nat, spurious: bool)

  predicate Enabled(s: State, step: Step) {
    step.w < |s.callers| &&
    match step
    case Load(w, granule) => s.callers[w].Idle? && granule / CELL < |s.cells|
    case GiveUp(w) => Sees(s, w) && Finds(s.callers[w])
    case Exchange(w, _) => Sees(s, w) && !Finds(s.callers[w])
  }

  predicate Sees(s: State, w: nat)
    requires w < |s.callers|
  {
    s.callers[w].Trying? && s.callers[w].g / CELL < |s.cells|
  }

  /** The new value equals the old one: the bit is set already. */
  predicate Finds(x: Caller)
    requires x.Trying?
  {
    x.seen | Mask(x.g % CELL) == x.seen
  }

  predicate Hits(s: State, step: Step)
    requires Enabled(s, step)
  {
    step.Exchange? && !step.spurious && s.cells[s.callers[step.w].g / CELL] == s.callers[step.w].seen
  }

  function Apply(s: State, step: Step): State
    requires Enabled(s, step)
  {
    var x := s.callers[step.w];
    match step
    case Load(w, granule) => s.(callers := s.callers[w := Trying(granule, s.cells[granule / CELL])])
    case GiveUp(w) => s.(callers := s.callers[w := Idle], lost := s.lost + multiset{x.g})
    case Exchange(w, spurious) =>
      if Hits(s, step)
      then s.(cells := s.cells[x.g / CELL := x.seen | Mask(x.g % CELL)], callers := s.callers[w := Idle],
              won := s.won + multiset{x.g})
      else s.(callers := s.callers[w := Trying(x.g, s.cells[x.g / CELL])])
  }

  predicate IsRun(states: seq<State>, steps: seq<Step>) {
    |states| == |steps| + 1 && states[0].won == states[0].lost == multiset{} &&
    (forall w :: 0 <= w < |states[0].callers| ==> states[0].callers[w].Idle?) &&
    forall k :: 0 <= k < |steps| ==> Enabled(states[k], steps[k]) && states[k + 1] == Apply(states[k], steps[k])
  }

  // ---------------------------------------------------------------------------------------------
  // Invariant
  // ---------------------------------------------------------------------------------------------

  /** Every bit of x is set in y. */
  predicate Within(x: bv8, y: bv8) { forall j :: 0 <= j < CELL && Has(x, j) ==> Has(y, j) }

  predicate SeenOk(s: State) {
    forall w :: 0 <= w < |s.callers| && s.callers[w].Trying? ==>
      s.callers[w].g / CELL < |s.cells| && Within(s.callers[w].seen, s.cells[s.callers[w].g / CELL])
  }

  ghost predicate Counted(first: seq<bv8>, s: State, g: nat) {
    (Marked(first, g) ==> Marked(s.cells, g)) && (g in s.lost ==> Marked(s.cells, g)) &&
    s.won[g] == if Marked(s.cells, g) && !Marked(first, g) then 1 else 0
  }

  ghost predicate Inv(first: seq<bv8>, s: State) {
    SeenOk(s) && forall g: nat :: Counted(first, s, g)
  }

  /** What a caller has seen it can rely on: bits are never cleared meanwhile. */
  lemma FoundIsMarked(s: State, w: nat)
    requires SeenOk(s) && w < |s.callers| && s.callers[w].Trying? && Finds(s.callers[w])
    ensures Marked(s.cells, s.callers[w].g)
  {
    var x := s.callers[w];
    hide Has, Mask;
    SetTwice(x.seen, x.g % CELL);
  }

  lemma HitChanges(s: State, step: Step)
    requires Enabled(s, step) && Hits(s, step)
    ensures var g := s.callers[step.w].g;
            !Marked(s.cells, g) &&
            forall k: nat :: Marked(Apply(s, step).cells, k) <==> k == g || Marked(s.cells, k)
  {
    hide Has, Mask, Marked;
    var x := s.callers[step.w];
    SetsClear(s.cells, x.g, x.seen);
    assert Apply(s, step).cells == s.cells[x.g / CELL := x.seen | Mask(x.g % CELL)];
  }

  lemma SetsClear(cells: seq<bv8>, g: nat, seen: bv8)
    requires g / CELL < |cells| && cells[g / CELL] == seen && seen | Mask(g % CELL) != seen
    ensures !Marked(cells, g)
    ensures forall k: nat :: Marked(cells[g / CELL := seen | Mask(g % CELL)], k) <==> k == g || Marked(cells, k)
  {
    hide Has, Mask, Marked;
    AlreadySet(cells, g);
    SetCell(cells, g, seen | Mask(g % CELL));
  }

  lemma MoreCells(s: State, step: Step, i: nat, x: bv8)
    requires Enabled(s, step) && i < |s.cells| && Within(x, s.cells[i])
    ensures |Apply(s, step).cells| == |s.cells| && Within(x, Apply(s, step).cells[i])
  {
    hide Has, Mask;
    if Hits(s, step) {
      var y := s.callers[step.w];
      forall j | 0 <= j < CELL && Has(x, j) ensures Has(Apply(s, step).cells[i], j) {
        HasSet(y.seen, y.g % CELL, j);
      }
    }
  }

  lemma WithinSelf(x: bv8)
    ensures Within(x, x)
  {
  }

  lemma SeenStep(s: State, step: Step)
    requires SeenOk(s) && Enabled(s, step)
    ensures SeenOk(Apply(s, step))
  {
    hide Has, Mask, Within;
    var after := Apply(s, step);
    assert |after.callers| == |s.callers|;
    forall w | 0 <= w < |after.callers| && after.callers[w].Trying?
      ensures after.callers[w].g / CELL < |after.cells|
      ensures Within(after.callers[w].seen, after.cells[after.callers[w].g / CELL])
    {
      var i, x := after.callers[w].g / CELL, after.callers[w].seen;
      WithinSelf(s.cells[i]);
      MoreCells(s, step, i, x);
    }
  }

  lemma CountedStep(first: seq<bv8>, s: State, step: Step, g: nat)
    requires Inv(first, s) && Enabled(s, step)
    ensures Counted(first, Apply(s, step), g)
  {
    assert Counted(first, s, g);
    if step.GiveUp? {
      FoundIsMarked(s, step.w);
    }
    hide Marked, Mask;
    if Hits(s, step) {
      HitChanges(s, step);
    }
  }

  lemma {:induction false} InvRun(states: seq<State>, steps: seq<Step>, k: nat)
    requires IsRun(states, steps) && k < |states|
    ensures Inv(states[0].cells, states[k])
  {
    if k > 0 {
      InvRun(states, steps, k - 1);
      SeenStep(states[k - 1], steps[k - 1]);
      forall g: nat ensures Counted(states[0].cells, states[k], g) {
        CountedStep(states[0].cells, states[k - 1], steps[k - 1], g);
      }
    }
  }

  // ---------------------------------------------------------------------------------------------
  // One call among others
  // ---------------------------------------------------------------------------------------------

  /**
   * In every state of every run a granule has been won once if it is set and was not at first, and never otherwise;
   * and once any call for it has answered, it is set.
   */
  lemma EachGranuleWonOnce(states: seq<State>, steps: seq<Step>, k: nat, g: nat)
    requires IsRun(states, steps) && k < |states|
    ensures states[k].won[g] == if Marked(states[k].cells, g) && !Marked(states[0].cells, g) then 1 else 0
    ensures g in states[k].won + states[k].lost ==> Marked(states[k].cells, g)
  {
    InvRun(states, steps, k);
    assert Counted(states[0].cells, states[k], g);
  }

  /**
   * Every step looks like an atomic test-and-set or like nothing: a call answers true in the step that turns its
   * granule from clear to set, answers false in a step that finds it set, and no other step changes a bit.
   */
  lemma StepsAreAtomic(states: seq<State>, steps: seq<Step>, k: nat)
    requires IsRun(states, steps) && k < |steps|
    ensures var s, after, w := states[k], states[k + 1], steps[k].w;
            w < |s.callers| &&
            if after.won != s.won then
              s.callers[w].Trying? && after.won == s.won + multiset{s.callers[w].g} && after.lost == s.lost &&
              !Marked(s.cells, s.callers[w].g) &&
              forall j: nat :: Marked(after.cells, j) <==> j == s.callers[w].g || Marked(s.cells, j)
            else if after.lost != s.lost then
              s.callers[w].Trying? && after.lost == s.lost + multiset{s.callers[w].g} &&
              Marked(s.cells, s.callers[w].g) && after.cells == s.cells
            else after.cells == s.cells
  {
    InvRun(states, steps, k);
    var s, step := states[k], steps[k];
    assert Enabled(s, step) && states[k + 1] == Apply(s, step);
    if step.GiveUp? {
      FoundIsMarked(s, step.w);
    }
    hide Marked, Mask, Counted;
    if Hits(s, step) {
      HitChanges(s, step);
      assert multiset{s.callers[step.w].g}[s.callers[step.w].g] == 1;
    }
  }

  /** The answer of a caller that nobody disturbs after its load. */
  function Answer(s: State, w: nat): Step
    requires w < |s.callers| && s.callers[w].Trying?
  {
    if Finds(s.callers[w]) then GiveUp(w) else Exchange(w, false)
  }

  /**
   * A call that nobody disturbs takes two steps, answers true exactly when its granule was clear, and leaves it set.
   */
  lemma UndisturbedCall(states: seq<State>, steps: seq<Step>, k: nat, w: nat, g: nat)
    requires IsRun(states, steps) && k < |states| && Enabled(states[k], Load(w, g))
    ensures var s := states[k];
            var mid := Apply(s, Load(w, g));
            w < |mid.callers| && mid.callers[w].Trying? && Enabled(mid, Answer(mid, w)) &&
            var after := Apply(mid, Answer(mid, w));
            after.callers == s.callers && Marked(after.cells, g) &&
            if Marked(s.cells, g) then after.lost == s.lost + multiset{g} && after.won == s.won
            else after.won == s.won + multiset{g} && after.lost == s.lost
  {
    hide Mask, Has, Marked, IsRun;
    var s := states[k];
    var mid := Apply(s, Load(w, g));
    assert mid.cells == s.cells && mid.callers == s.callers[w := Trying(g, s.cells[g / CELL])];
    AlreadySet(s.cells, g);
    assert s.callers[w].Idle? && s.callers[w := Idle] == s.callers;
    assert mid.callers[w := Idle] == s.callers;
    if !Finds(mid.callers[w]) {
      HitChanges(mid, Exchange(w, false));
    }
  }

  /** A caller in the loop can always take a step: the exchange exactly when it has not seen its granule set. */
  lemma CallsGoOn(states: seq<State>, steps: seq<Step>, k: nat, w: nat)
    requires IsRun(states, steps) && k < |states| && w < |states[k].callers| && states[k].callers[w].Trying?
    ensures var x := states[k].callers[w];
            x.g / CELL < |states[k].cells| &&
            (Enabled(states[k], Exchange(w, false)) <==> !Has(x.seen, x.g % CELL)) &&
            (Enabled(states[k], GiveUp(w)) <==> Has(x.seen, x.g % CELL))
  {
    InvRun(states, steps, k);
    var x := states[k].callers[w];
    hide Mask, Has, Counted, IsRun;
    SetTwice(x.seen, x.g % CELL);
  }

  // ---------------------------------------------------------------------------------------------
  // Retries
  // ---------------------------------------------------------------------------------------------

  function Bits(x: bv8): set<nat> { set j: nat | j < CELL && Has(x, j) }

  lemma SameBits(x: bv8, y: bv8)
    requires forall j :: 0 <= j < CELL ==> (Has(x, j) <==> Has(y, j))
    ensures x == y
  {
    assert Has(x, 0) <==> Has(y, 0);
    assert Has(x, 1) <==> Has(y, 1);
    assert Has(x, 2) <==> Has(y, 2);
    assert Has(x, 3) <==> Has(y, 3);
    assert Has(x, 4) <==> Has(y, 4);
    assert Has(x, 5) <==> Has(y, 5);
    assert Has(x, 6) <==> Has(y, 6);
    assert Has(x, 7) <==> Has(y, 7);
  }

  lemma {:induction false} SmallerSet(a: set<nat>, b: set<nat>)
    requires a < b
    ensures |a| < |b|
  {
    assert |b - a| > 0;
    assert b == a + (b - a);
  }

  lemma BitsLess(x: bv8, y: bv8)
    requires Within(x, y) && x != y
    ensures |Bits(x)| < |Bits(y)|
  {
    hide Has;
    if forall j :: 0 <= j < CELL ==> (Has(x, j) <==> Has(y, j)) {
      SameBits(x, y);
    } else {
      var j :| 0 <= j < CELL && Has(x, j) != Has(y, j);
      assert j in Bits(y) && j !in Bits(x);
      SmallerSet(Bits(x), Bits(y));
    }
  }

  lemma {:induction false} BelowSize(a: set<nat>, n: nat)
    requires forall j :: j in a ==> j < n
    ensures |a| <= n
  {
    if n > 0 {
      BelowSize(a - {n - 1}, n - 1);
    }
  }

  /** The compare-and-swap failed because the cell had changed. */
  predicate Misses(s: State, step: Step, w: nat)
    requires Enabled(s, step)
  {
    step.Exchange? && !step.spurious && step.w == w && !Hits(s, step)
  }

  /** How often caller w has failed so between states a and b. */
  function Misfires(states: seq<State>, steps: seq<Step>, w: nat, a: nat, b: nat): nat
    requires IsRun(states, steps) && a <= b <= |steps|
    decreases b - a
  {
    if a == b then 0
    else Misfires(states, steps, w, a, b - 1) + if Misses(states[b - 1], steps[b - 1], w) then 1 else 0
  }

  /** Caller w is in one and the same call from state a to state b. */
  predicate OneCall(states: seq<State>, w: nat, a: nat, b: nat) {
    a <= b < |states| && forall k :: a <= k <= b ==> w < |states[k].callers| && states[k].callers[w].Trying?
  }

  lemma MissLearns(s: State, step: Step, w: nat)
    requires SeenOk(s) && Enabled(s, step) && w < |s.callers| && s.callers[w].Trying?
    requires Apply(s, step).callers[w].Trying?
    ensures |Bits(Apply(s, step).callers[w].seen)| >=
            |Bits(s.callers[w].seen)| + if Misses(s, step, w) then 1 else 0
  {
    hide Has, Bits, Mask, Within;
    var x, y := s.callers[w].seen, Apply(s, step).callers[w].seen;
    if x != y {
      BitsLess(x, y);
    }
  }

  lemma {:induction false} MissesCount(states: seq<State>, steps: seq<Step>, w: nat, a: nat, b: nat)
    requires IsRun(states, steps) && OneCall(states, w, a, b)
    ensures Misfires(states, steps, w, a, b) <= |Bits(states[b].callers[w].seen)|
    decreases b - a
  {
    hide Bits, Apply, Counted, SeenOk;
    if a < b {
      var k := b - 1;
      assert Enabled(states[k], steps[k]) && states[k + 1] == Apply(states[k], steps[k]);
      assert OneCall(states, w, a, k) && states[b].callers[w].Trying?;
      MissesCount(states, steps, w, a, k);
      InvRun(states, steps, k);
      MissLearns(states[k], steps[k], w);
    }
  }

  /** A call fails at most eight times because of others, however many there are. */
  lemma RetriesAreBounded(states: seq<State>, steps: seq<Step>, w: nat, a: nat, b: nat)
    requires IsRun(states, steps) && OneCall(states, w, a, b)
    ensures Misfires(states, steps, w, a, b) <= CELL
  {
    MissesCount(states, steps, w, a, b);
    hide Has;
    BelowSize(Bits(states[b].callers[w].seen), CELL);
  }
}

/**
 * The Arora-Blumofe-Plaxton work-stealing deque with wrap-around.
 *
 * One owner pushes and pops at `bottom`; any number of thieves take from `age.top`. Every access to the shared
 * words is one step. Each push is numbered, and a pop claims a number: the statements below are about claims,
 * because the code reads the slot only after the claim has been decided.
 */
module AbpDeque {

  datatype Age = Age(tag: nat, top: nat)

  /** The order in which ages occur. */
  predicate LexLt(a: Age, b: Age) {
    a.tag < b.tag || (a.tag == b.tag && a.top < b.top)
  }

  /** The program points of the owner, each just before its next access to shared memory. */
  datatype OwnerPc =
    | Idle
    | PushWrite
    | PushPublish
    | PopDecrement
    | PopReadTop
    | PopReadAge
    | PopCas(seen: Age)
    | PopReset(seen: Age)

  /** `overwritten` is history: whether the owner has written the slot since the claim. */
  datatype ThiefPc =
    | Resting
    | GotAge(seen: Age)
    | Ready(seen: Age)
    | Claimed(slot: nat, id: nat, overwritten: bool)

  /**
   * `bottom`, `age` and `elems` are the queue; `n` is its capacity. The rest is history: `pushes` numbers the
   * published pushes, `claims` lists the claimed ones, and `top` and `bot` are the unwrapped positions.
   */
  datatype State = State(
    n: nat, bottom: nat, age: Age, elems: seq<nat>, owner: OwnerPc, thieves: map<nat, ThiefPc>,
    pushes: nat, claims: seq<nat>, top: int, bot: int)

  // ---------------------------------------------------------------------------------------------
  // Index arithmetic
  // ---------------------------------------------------------------------------------------------

  function MaxElems(n: nat): int { n - 2 }

  /** `(bot - top) & (n - 1)`, which for a power of two is the remainder. */
  function DirtySize(n: nat, bot: int, top: int): nat
    requires n > 0
  {
    (bot - top) % n
  }

  /** A dirty size of n - 1 is a pop that lost the race for the last element. */
  function CleanSize(n: nat, bot: int, top: int): nat
    requires n > 0
  {
    var size := DirtySize(n, bot, top);
    if size == n - 1 then 0 else size
  }

  function Increment(n: nat, i: nat): nat
    requires n > 0
  {
    (i + 1) % n
  }

  function Decrement(n: nat, i: nat): nat
    requires n > 0
  {
    (i - 1) % n
  }

  // ---------------------------------------------------------------------------------------------
  // Steps
  // ---------------------------------------------------------------------------------------------

  datatype Step =
    | StartPush
    | WriteSlot
    | Publish
    | StartPop(threshold: nat)
    | LowerBottom
    | ReadTop
    | ReadAge
    | OwnerCas
    | ResetAge
    | StealReadAge(t: nat)
    | StealReadBottom(t: nat)
    | StealCas(t: nat)
    | StealReadSlot(t: nat)

  function Thief(s: State, t: nat): ThiefPc {
    if t in s.thieves then s.thieves[t] else Resting
  }

  predicate Enabled(s: State, step: Step) {
    s.n >= 2 && s.bottom < s.n && |s.elems| == s.n && s.age.top < s.n &&
    match step
    case StartPush => s.owner.Idle?
    case WriteSlot => s.owner.PushWrite?
    case Publish => s.owner.PushPublish?
    case StartPop(_) => s.owner.Idle?
    case LowerBottom => s.owner.PopDecrement?
    case ReadTop => s.owner.PopReadTop?
    case ReadAge => s.owner.PopReadAge?
    case OwnerCas => s.owner.PopCas?
    case ResetAge => s.owner.PopReset?
    case StealReadAge(t) => Thief(s, t).Resting?
    case StealReadBottom(t) => Thief(s, t).GotAge?
    case StealCas(t) => Thief(s, t).Ready? && Thief(s, t).seen.top < s.n
    case StealReadSlot(t) => Thief(s, t).Claimed?
  }

  function MarkOverwritten(pc: ThiefPc, slot: nat): ThiefPc {
    if pc.Claimed? && pc.slot == slot then pc.(overwritten := true) else pc
  }

  /** The age a successful steal installs. */
  function StolenAge(n: nat, seen: Age): Age
    requires n > 0
  {
    var newTop := Increment(n, seen.top);
    Age(seen.tag + (if newTop == 0 then 1 else 0), newTop)
  }

  /** The steps of `push` and `pop_local`. */
  function OwnerStep(s: State, step: Step): State
    requires Enabled(s, step) && !step.StealReadAge? && !step.StealReadBottom? && !step.StealCas?
    requires !step.StealReadSlot?
  {
    match step
    case StartPush =>
      if DirtySize(s.n, s.bottom, s.age.top) < MaxElems(s.n) then s.(owner := PushWrite) else s
    case WriteSlot =>
      s.(elems := s.elems[s.bottom := s.pushes], owner := PushPublish,
         thieves := map t | t in s.thieves :: MarkOverwritten(s.thieves[t], s.bottom))
    case Publish =>
      s.(bottom := Increment(s.n, s.bottom), bot := s.bot + 1, pushes := s.pushes + 1, owner := Idle)
    case StartPop(threshold) =>
      if DirtySize(s.n, s.bottom, s.age.top) <= threshold then s else s.(owner := PopDecrement)
    case LowerBottom =>
      s.(bottom := Decrement(s.n, s.bottom), bot := s.bot - 1, owner := PopReadTop)
    case ReadTop =>
      if CleanSize(s.n, s.bottom, s.age.top) > 0 then s.(claims := s.claims + [s.elems[s.bottom]], owner := Idle)
      else s.(owner := PopReadAge)
    case ReadAge =>
      if s.bottom == s.age.top then s.(owner := PopCas(s.age)) else s.(owner := PopReset(s.age))
    case OwnerCas =>
      var seen := s.owner.seen;
      if s.age == seen then
        s.(age := Age(seen.tag + 1, s.bottom), top := s.bot, claims := s.claims + [s.elems[s.bottom]], owner := Idle)
      else s.(owner := PopReset(seen))
    case ResetAge =>
      s.(age := Age(s.owner.seen.tag + 1, s.bottom), top := s.bot, owner := Idle)
  }

  /** The steps of `pop_global`. */
  function ThiefStep(s: State, step: Step): State
    requires Enabled(s, step) && (step.StealReadAge? || step.StealReadBottom? || step.StealCas? || step.StealReadSlot?)
  {
    var pc := Thief(s, step.t);
    match step
    case StealReadAge(t) => s.(thieves := s.thieves[t := GotAge(s.age)])
    case StealReadBottom(t) =>
      s.(thieves := s.thieves[t := if CleanSize(s.n, s.bottom, pc.seen.top) == 0 then Resting else Ready(pc.seen)])
    case StealCas(t) =>
      if s.age == pc.seen then
        var id := s.elems[s.age.top];
        s.(age := StolenAge(s.n, s.age), top := s.top + 1, claims := s.claims + [id],
           thieves := s.thieves[t := Claimed(s.age.top, id, false)])
      else s.(thieves := s.thieves[t := Resting])
    case StealReadSlot(t) => s.(thieves := s.thieves[t := Resting])
  }

  function Apply(s: State, step: Step): State
    requires Enabled(s, step)
  {
    if step.StealReadAge? || step.StealReadBottom? || step.StealCas? || step.StealReadSlot? then ThiefStep(s, step)
    else OwnerStep(s, step)
  }

  /** What a thief hands out: the contents of the slot at the time it finally reads it. */
  function SlotRead(s: State, t: nat): nat
    requires Enabled(s, StealReadSlot(t)) && Thief(s, t).slot < s.n
  {
    s.elems[Thief(s, t).slot]
  }

  predicate Init(s: State) {
    s.n >= 2 && s.bottom == 0 && s.age == Age(0, 0) && |s.elems| == s.n && s.owner == Idle && s.thieves == map[] &&
    s.pushes == 0 && s.claims == [] && s.top == 0 && s.bot == 0
  }

  ghost predicate IsRun(states: seq<State>, steps: seq<Step>) {
    |states| == |steps| + 1 && Init(states[0]) &&
    forall k :: 0 <= k < |steps| ==> Enabled(states[k], steps[k]) && states[k + 1] == Apply(states[k], steps[k])
  }

  // ---------------------------------------------------------------------------------------------
  // The invariant
  // ---------------------------------------------------------------------------------------------

  /** The owner has lowered `bottom` and not yet settled who gets the element it now points at. */
  predicate InWindow(s: State) {
    s.owner.PopReadTop? || s.owner.PopReadAge? || s.owner.PopCas? || s.owner.PopReset?
  }

  /** One past the last position whose element is still unclaimed. */
  function End(s: State): int {
    if InWindow(s) then s.bot + 1 else s.bot
  }

  predicate Shape(s: State) {
    s.n >= 2 && |s.elems| == s.n && 0 <= s.top <= End(s) && End(s) - s.top <= MaxElems(s.n) && 0 <= s.bot &&
    s.bottom == s.bot % s.n && s.age.top == s.top % s.n
  }

  predicate OwnerOk(s: State) {
    match s.owner
    case Idle => true
    case PushWrite => s.bot - s.top < MaxElems(s.n)
    case PushPublish =>
      s.bot - s.top < MaxElems(s.n) && s.n > 0 && s.bot % s.n < |s.elems| && s.elems[s.bot % s.n] == s.pushes
    case PopDecrement => s.bot >= 1
    case PopReadTop => true
    case PopReadAge => s.top >= s.bot
    case PopCas(seen) =>
      seen.top == s.bottom && s.n > 0 &&
      ((s.age == seen && s.top == s.bot) || (s.age == StolenAge(s.n, seen) && s.top == s.bot + 1))
    case PopReset(seen) =>
      s.top == s.bot + 1 && s.n > 0 && (s.age == seen || (s.age == StolenAge(s.n, seen) && seen.top == s.bottom))
  }

  predicate ThiefOk(s: State, pc: ThiefPc) {
    match pc
    case Resting => true
    case GotAge(seen) => seen == s.age || LexLt(seen, s.age)
    case Ready(seen) => if seen == s.age then s.top < End(s) else LexLt(seen, s.age)
    case Claimed(slot, id, overwritten) =>
      slot < |s.elems| && id in s.claims && (s.elems[slot] == id <==> !overwritten)
  }

  /** Position `p` holds a published push that nobody has claimed. */
  predicate Live(s: State, p: int)
    requires s.n > 0 && |s.elems| == s.n
  {
    s.elems[p % s.n] < s.pushes && s.elems[p % s.n] !in s.claims
  }

  ghost predicate LiveOk(s: State)
    requires s.n > 0 && |s.elems| == s.n
  {
    (forall p :: s.top <= p < End(s) ==> Live(s, p)) &&
    (forall p, q :: s.top <= p < q < End(s) ==> s.elems[p % s.n] < s.elems[q % s.n])
  }

  ghost predicate ClaimsOk(s: State)
    requires s.n > 0 && |s.elems| == s.n
  {
    (forall i :: 0 <= i < |s.claims| ==> s.claims[i] < s.pushes) &&
    (forall i, j :: 0 <= i < j < |s.claims| ==> s.claims[i] != s.claims[j]) &&
    (forall id: nat :: id < s.pushes ==> id in s.claims || exists p :: s.top <= p < End(s) && s.elems[p % s.n] == id)
  }

  ghost predicate Inv(s: State) {
    Shape(s) && OwnerOk(s) && (forall t :: t in s.thieves ==> ThiefOk(s, s.thieves[t])) && LiveOk(s) && ClaimsOk(s)
  }

  // ---------------------------------------------------------------------------------------------
  // Remainders
  // ---------------------------------------------------------------------------------------------

  lemma MulAtLeast(n: nat, k: int)
    requires n > 0
    ensures k >= 1 ==> n * k >= n
    ensures k <= -1 ==> n * k + n <= 0
  {
  }

  lemma ModUnique(x: int, k: int, r: int, n: nat)
    requires 0 <= r < n && x == n * k + r
    ensures x % n == r && x / n == k
  {
    var k', r' := x / n, x % n;
    assert x == n * k' + r';
    assert n * (k' - k) == r - r';
    MulAtLeast(n, k' - k);
  }

  lemma ModReduce(a: int, d: int, n: nat)
    requires n > 0
    ensures (a % n + d) % n == (a + d) % n
  {
    var b := a % n + d;
    assert a == n * (a / n) + a % n;
    assert b == n * (b / n) + b % n;
    assert a + d == n * (a / n + b / n) + b % n;
    ModUnique(a + d, a / n + b / n, b % n, n);
  }

  /** The wrapped sizes are exact, a lost race showing as n - 1. */
  lemma SizesExact(n: nat, bot: int, top: int)
    requires n >= 2 && -1 <= bot - top <= n - 2
    ensures DirtySize(n, bot % n, top % n) == if bot < top then n - 1 else bot - top
    ensures CleanSize(n, bot % n, top % n) == if bot < top then 0 else bot - top
  {
    var size := if bot < top then n - 1 else bot - top;
    var k := if bot < top then -1 else 0;
    assert bot == n * (bot / n) + bot % n;
    assert top == n * (top / n) + top % n;
    assert bot - top == n * k + size by {
      assert n * -1 + n == 0 && n * 0 == 0;
    }
    assert bot % n - top % n == n * (k - bot / n + top / n) + size by {
      assert n * (k - bot / n + top / n) == n * k - n * (bot / n) + n * (top / n);
    }
    ModUnique(bot % n - top % n, k - bot / n + top / n, size, n);
  }

  lemma SlotsDiffer(p: int, q: int, n: nat)
    requires n > 0 && 0 < q - p < n
    ensures p % n != q % n
  {
    assert p == n * (p / n) + p % n;
    assert q == n * (q / n) + q % n;
    if p % n == q % n {
      assert q - p == n * (q / n - p / n);
      MulAtLeast(n, q / n - p / n);
    }
  }

  lemma IncrementValue(n: nat, i: nat)
    requires i < n
    ensures Increment(n, i) == if i == n - 1 then 0 else i + 1
  {
    ModUnique(i + 1, if i == n - 1 then 1 else 0, if i == n - 1 then 0 else i + 1, n);
  }

  lemma StolenAgeLater(n: nat, seen: Age)
    requires n >= 2 && seen.top < n
    ensures LexLt(seen, StolenAge(n, seen)) && StolenAge(n, seen).top < n
    ensures LexLt(StolenAge(n, seen), Age(seen.tag + 1, seen.top))
  {
    IncrementValue(n, seen.top);
  }

  // ---------------------------------------------------------------------------------------------
  // Every step keeps the invariant
  // ---------------------------------------------------------------------------------------------

  /** Claiming the element at one end of the live positions. */
  lemma ClaimKeeps(s: State, s': State, p: int)
    requires Shape(s) && LiveOk(s) && ClaimsOk(s) && Shape(s') && s'.n == s.n && s'.elems == s.elems
    requires s'.pushes == s.pushes
    requires s.top <= p < End(s) && s'.claims == s.claims + [s.elems[p % s.n]]
    requires (p == s.top && s'.top == s.top + 1 && End(s') == End(s)) ||
             (p == End(s) - 1 && s'.top == s.top && End(s') == p)
    ensures LiveOk(s') && ClaimsOk(s')
  {
    var id := s.elems[p % s.n];
    forall q | s'.top <= q < End(s')
      ensures Live(s', q)
    {
      assert Live(s, q);
      assert s.elems[q % s.n] != id;
    }
    assert Live(s, p);
    forall other: nat | other < s'.pushes
      ensures other in s'.claims || exists q :: s'.top <= q < End(s') && s'.elems[q % s.n] == other
    {
      if other !in s'.claims {
        assert other !in s.claims && other != id;
        var q :| s.top <= q < End(s) && s.elems[q % s.n] == other;
        assert s'.top <= q < End(s');
      }
    }
  }

  lemma FreshSlot(s: State, p: int)
    requires Shape(s) && !InWindow(s) && s.top <= p < s.bot && s.bot - s.top < s.n
    ensures p % s.n != s.bot % s.n
  {
    SlotsDiffer(p, s.bot, s.n);
  }

  lemma WriteThieves(s: State, t: nat)
    requires Inv(s) && Enabled(s, WriteSlot) && t in s.thieves
    ensures ThiefOk(Apply(s, WriteSlot), Apply(s, WriteSlot).thieves[t])
  {
    hide LiveOk;
    var pc := s.thieves[t];
    assert ThiefOk(s, pc);
    if pc.Claimed? {
      assert pc.id < s.pushes;
    }
  }

  lemma InvWrite(s: State)
    requires Inv(s) && Enabled(s, WriteSlot)
    ensures Inv(Apply(s, WriteSlot))
  {
    hide ThiefOk;
    var s' := Apply(s, WriteSlot);
    forall t | t in s'.thieves
      ensures ThiefOk(s', s'.thieves[t])
    {
      WriteThieves(s, t);
    }
    forall p | s.top <= p < s.bot
      ensures s'.elems[p % s.n] == s.elems[p % s.n] && Live(s', p)
    {
      FreshSlot(s, p);
      assert Live(s, p);
    }
    forall p, q | s'.top <= p < q < End(s')
      ensures s'.elems[p % s.n] < s'.elems[q % s.n]
    {
      assert s.elems[p % s.n] < s.elems[q % s.n];
    }
    forall id: nat | id < s'.pushes && id !in s'.claims
      ensures exists p :: s'.top <= p < End(s') && s'.elems[p % s.n] == id
    {
      var p :| s.top <= p < End(s) && s.elems[p % s.n] == id;
      assert s'.elems[p % s.n] == id;
    }
  }

  lemma PublishThieves(s: State)
    requires Inv(s) && Enabled(s, Publish)
    ensures forall t :: t in Apply(s, Publish).thieves ==> ThiefOk(Apply(s, Publish), Apply(s, Publish).thieves[t])
  {
    hide LiveOk, ClaimsOk;
    var s' := Apply(s, Publish);
    forall t | t in s'.thieves ensures ThiefOk(s', s'.thieves[t]) {
      assert ThiefOk(s, s.thieves[t]);
    }
  }

  lemma InvPublish(s: State)
    requires Inv(s) && Enabled(s, Publish)
    ensures Inv(Apply(s, Publish))
  {
    PublishThieves(s);
    hide ThiefOk;
    var s' := Apply(s, Publish);
    ModReduce(s.bot, 1, s.n);
    forall p | s'.top <= p < End(s')
      ensures Live(s', p)
    {
      if p < s.bot {
        assert Live(s, p);
      }
    }
    forall p, q | s'.top <= p < q < End(s')
      ensures s'.elems[p % s.n] < s'.elems[q % s.n]
    {
      assert Live(s, p);
      if q < s.bot {
        assert s.elems[p % s.n] < s.elems[q % s.n];
      }
    }
    forall id: nat | id < s'.pushes && id !in s'.claims
      ensures exists p :: s'.top <= p < End(s') && s'.elems[p % s.n] == id
    {
      if id == s.pushes {
        assert s'.elems[s.bot % s.n] == id;
      } else {
        var p :| s.top <= p < End(s) && s.elems[p % s.n] == id;
        assert s'.elems[p % s.n] == id;
      }
    }
  }

  lemma InvLowerBottom(s: State)
    requires Inv(s) && Enabled(s, LowerBottom)
    ensures Inv(Apply(s, LowerBottom))
  {
    var s' := Apply(s, LowerBottom);
    ModReduce(s.bot, -1, s.n);
    assert End(s') == End(s) && Shape(s');
    SameContents(s, s');
    hide LiveOk, ClaimsOk;
    forall t | t in s'.thieves
      ensures ThiefOk(s', s'.thieves[t])
    {
      assert ThiefOk(s, s.thieves[t]);
    }
  }

  /** Steps that change neither the positions nor the contents. */
  lemma SameContents(s: State, s': State)
    requires Inv(s) && s'.n == s.n && s'.elems == s.elems && s'.pushes == s.pushes && s'.claims == s.claims
    requires s'.top == s.top && End(s') == End(s) && Shape(s')
    ensures LiveOk(s') && ClaimsOk(s')
  {
    forall p | s'.top <= p < End(s')
      ensures Live(s', p)
    {
      assert Live(s, p);
    }
  }

  lemma InvReadTop(s: State)
    requires Inv(s) && Enabled(s, ReadTop)
    ensures Inv(Apply(s, ReadTop))
  {
    var s' := Apply(s, ReadTop);
    SizesExact(s.n, s.bot, s.top);
    if s'.owner.Idle? {
      ClaimKeeps(s, s', s.bot);
    } else {
      SameContents(s, s');
    }
  }

  lemma InvReadAge(s: State)
    requires Inv(s) && Enabled(s, ReadAge)
    ensures Inv(Apply(s, ReadAge))
  {
    var s' := Apply(s, ReadAge);
    SlotsDiffer(s.bot, s.bot + 1, s.n);
    SameContents(s, s');
  }

  lemma LaterForThieves(s: State, s': State)
    requires Inv(s) && s'.elems == s.elems && s'.pushes == s.pushes && s'.thieves == s.thieves
    requires LexLt(s.age, s'.age) && s.claims <= s'.claims
    ensures forall t :: t in s'.thieves ==> ThiefOk(s', s'.thieves[t])
  {
    forall t | t in s'.thieves
      ensures ThiefOk(s', s'.thieves[t])
    {
      assert ThiefOk(s, s.thieves[t]);
    }
  }

  lemma InvOwnerCas(s: State)
    requires Inv(s) && Enabled(s, OwnerCas)
    ensures Inv(Apply(s, OwnerCas))
  {
    var s' := Apply(s, OwnerCas);
    StolenAgeLater(s.n, s.owner.seen);
    if s'.owner.Idle? {
      LaterForThieves(s, s');
      ClaimKeeps(s, s', s.bot);
    } else {
      SameContents(s, s');
    }
  }

  lemma InvResetAge(s: State)
    requires Inv(s) && Enabled(s, ResetAge)
    ensures Inv(Apply(s, ResetAge))
    ensures LexLt(s.age, Apply(s, ResetAge).age)
  {
    var s' := Apply(s, ResetAge);
    if s.owner.seen.top < s.n {
      StolenAgeLater(s.n, s.owner.seen);
    }
    LaterForThieves(s, s');
    assert forall id: nat :: id < s.pushes ==> id in s.claims;
  }

  lemma InvStart(s: State, step: Step)
    requires Inv(s) && Enabled(s, step) && (step.StartPush? || step.StartPop?)
    ensures Inv(Apply(s, step))
  {
    SizesExact(s.n, s.bot, s.top);
    SameContents(s, Apply(s, step));
  }

  lemma InvStealRead(s: State, step: Step)
    requires Inv(s) && Enabled(s, step) && (step.StealReadAge? || step.StealReadBottom? || step.StealReadSlot?)
    ensures Inv(Apply(s, step))
  {
    SizesExact(s.n, s.bot, s.top);
    SameContents(s, Apply(s, step));
  }

  lemma InvStealCas(s: State, t: nat)
    requires Inv(s) && Enabled(s, StealCas(t))
    ensures Inv(Apply(s, StealCas(t)))
  {
    var s' := Apply(s, StealCas(t));
    if s.age == Thief(s, t).seen {
      StolenAgeLater(s.n, s.age);
      ModReduce(s.top, 1, s.n);
      ClaimKeeps(s, s', s.top);
      assert Live(s, s.top);
      forall u | u in s'.thieves
        ensures ThiefOk(s', s'.thieves[u])
      {
        if u != t {
          assert ThiefOk(s, s.thieves[u]);
        }
      }
      assert OwnerOk(s');
    } else {
      SameContents(s, s');
    }
  }

  lemma InvStep(s: State, step: Step)
    requires Inv(s) && Enabled(s, step)
    ensures Inv(Apply(s, step))
  {
    hide Apply, Inv, Enabled;
    match step
    case StartPush => InvStart(s, step);
    case WriteSlot => InvWrite(s);
    case Publish => InvPublish(s);
    case StartPop(_) => InvStart(s, step);
    case LowerBottom => InvLowerBottom(s);
    case ReadTop => InvReadTop(s);
    case ReadAge => InvReadAge(s);
    case OwnerCas => InvOwnerCas(s);
    case ResetAge => InvResetAge(s);
    case StealReadAge(_) => InvStealRead(s, step);
    case StealReadBottom(_) => InvStealRead(s, step);
    case StealCas(t) => InvStealCas(s, t);
    case StealReadSlot(_) => InvStealRead(s, step);
  }

  lemma {:induction false} InvRun(states: seq<State>, steps: seq<Step>, k: nat)
    requires IsRun(states, steps) && k < |states|
    ensures Inv(states[k])
  {
    hide Apply, Enabled;
    if k > 0 {
      InvRun(states, steps, k - 1);
      InvStep(states[k - 1], steps[k - 1]);
    }
  }

  // ---------------------------------------------------------------------------------------------
  // Main results
  // ---------------------------------------------------------------------------------------------

  /**
   * In every interleaving each push is claimed at most once, only pushes are claimed, and an unclaimed push is
   * still in the queue, at a position between top and bottom.
   */
  lemma EachPushClaimedOnce(states: seq<State>, steps: seq<Step>, k: nat, id: nat)
    requires IsRun(states, steps) && k < |states|
    ensures multiset(states[k].claims)[id] <= 1
    ensures id in states[k].claims ==> id < states[k].pushes
    ensures Shape(states[k])
    ensures id < states[k].pushes && id !in states[k].claims ==>
              exists p :: states[k].top <= p < End(states[k]) && states[k].elems[p % states[k].n] == id
  {
    hide Apply, Enabled;
    InvRun(states, steps, k);
    NoRepeats(states[k].claims, id);
  }

  lemma {:induction false} NoRepeats(xs: seq<nat>, x: nat)
    requires forall i, j :: 0 <= i < j < |xs| ==> xs[i] != xs[j]
    ensures multiset(xs)[x] <= 1
  {
    if xs != [] {
      var m := |xs| - 1;
      assert xs == xs[..m] + [xs[m]];
      NoRepeats(xs[..m], x);
      if xs[m] == x {
        assert x !in xs[..m];
      }
    }
  }

  /** A step that changes the age moves it strictly forward. */
  lemma AgeStep(s: State, step: Step)
    requires Inv(s) && Enabled(s, step)
    ensures Apply(s, step).age == s.age || LexLt(s.age, Apply(s, step).age)
  {
    if step.ResetAge? {
      InvResetAge(s);
    } else if step.StealCas? {
      StolenAgeLater(s.n, s.age);
    }
  }

  lemma {:induction false} AgeMonotone(states: seq<State>, steps: seq<Step>, i: nat, j: nat)
    requires IsRun(states, steps) && i <= j < |states|
    ensures states[j].age == states[i].age || LexLt(states[i].age, states[j].age)
    decreases j - i
  {
    hide Apply, Enabled, Init;
    if i < j {
      AgeMonotone(states, steps, i, j - 1);
      InvRun(states, steps, j - 1);
      AgeStep(states[j - 1], steps[j - 1]);
    }
  }

  /**
   * An age never comes back: a compare-and-swap whose expected age was read before any change to the age fails.
   */
  lemma StaleCasFails(states: seq<State>, steps: seq<Step>, i: nat, m: nat, j: nat)
    requires IsRun(states, steps) && i <= m <= j < |states|
    requires states[m].age != states[i].age
    ensures states[j].age != states[i].age
  {
    hide Apply, Enabled, Init;
    AgeMonotone(states, steps, i, m);
    AgeMonotone(states, steps, m, j);
  }

  /** The two assertions at the start of `push` hold whenever it is called. */
  lemma PushAssertsHold(states: seq<State>, steps: seq<Step>, k: nat)
    requires IsRun(states, steps) && k < |steps| && steps[k].StartPush?
    ensures states[k].bottom < states[k].n
    ensures DirtySize(states[k].n, states[k].bottom, states[k].age.top) <= MaxElems(states[k].n)
  {
    hide Apply;
    InvRun(states, steps, k);
    SizesExact(states[k].n, states[k].bot, states[k].top);
  }

  /** Whether the owner writes `slot` at some step strictly between `i` and `k`. */
  ghost predicate WrittenBetween(states: seq<State>, steps: seq<Step>, slot: nat, i: nat, k: nat)
    requires |states| == |steps| + 1 && k <= |steps|
  {
    exists m :: i < m < k && steps[m] == WriteSlot && states[m].bottom == slot
  }

  /** From its claim until it reads the slot, a thief's record says what it claimed and whether that was overwritten. */
  lemma {:induction false} ClaimRemembered(states: seq<State>, steps: seq<Step>, t: nat, i: nat, k: nat)
    requires IsRun(states, steps) && i < k <= |steps|
    requires steps[i] == StealCas(t) && states[i].age == Thief(states[i], t).seen
    requires forall m :: i < m < k ==> steps[m] != StealReadSlot(t)
    ensures Enabled(states[i], steps[i])
    ensures Thief(states[k], t) == Claimed(states[i].age.top, states[i].elems[states[i].age.top],
                                           WrittenBetween(states, steps, states[i].age.top, i, k))
    decreases k
  {
    assert states[i + 1] == Apply(states[i], steps[i]);
    if k > i + 1 {
      ClaimRemembered(states, steps, t, i, k - 1);
      var s, step := states[k - 1], steps[k - 1];
      assert states[k] == Apply(s, step) && Enabled(s, step);
      var slot := states[i].age.top;
      assert WrittenBetween(states, steps, slot, i, k) <==>
             WrittenBetween(states, steps, slot, i, k - 1) || (step == WriteSlot && s.bottom == slot);
      ThiefKeepsClaim(s, step, t);
    }
  }

  lemma ThiefKeepsClaim(s: State, step: Step, t: nat)
    requires Enabled(s, step) && Thief(s, t).Claimed? && step != StealReadSlot(t)
    ensures Thief(Apply(s, step), t) == if step.WriteSlot? then MarkOverwritten(Thief(s, t), s.bottom) else Thief(s, t)
  {
  }

  /**
   * A thief hands out the push it claimed exactly when the owner has not written that slot between the claim and
   * the read: the slot is read after the compare-and-swap, and nothing else protects it.
   */
  lemma SlotReadIff(states: seq<State>, steps: seq<Step>, t: nat, i: nat, k: nat)
    requires IsRun(states, steps) && i < k < |steps|
    requires steps[i] == StealCas(t) && states[i].age == Thief(states[i], t).seen && steps[k] == StealReadSlot(t)
    requires forall m :: i < m < k ==> steps[m] != StealReadSlot(t)
    ensures Enabled(states[i], steps[i]) && Enabled(states[k], steps[k]) && Thief(states[k], t).slot < states[k].n
    ensures SlotRead(states[k], t) == states[i].elems[states[i].age.top] <==>
            !WrittenBetween(states, steps, states[i].age.top, i, k)
  {
    hide Apply;
    ClaimRemembered(states, steps, t, i, k);
    InvRun(states, steps, k);
  }

  // ---------------------------------------------------------------------------------------------
  // When a claimed slot is written again
  // ---------------------------------------------------------------------------------------------

  /** A `pop_local` that lost the race for the element at position p. */
  ghost predicate LostPop(states: seq<State>, steps: seq<Step>, p: int, i: nat, k: nat)
    requires |states| == |steps| + 1 && k <= |steps|
  {
    exists r :: i < r < k && steps[r] == ResetAge && states[r].bot == p
  }

  /** Only a lost pop takes `top` back, and by one position only. */
  lemma TopStep(s: State, step: Step)
    requires Inv(s) && Enabled(s, step)
    ensures Apply(s, step).top >= s.top || (step == ResetAge && Apply(s, step).top == s.bot == s.top - 1)
  {
  }

  lemma {:induction false} TopStaysAbove(states: seq<State>, steps: seq<Step>, p: int, i: nat, k: nat)
    requires IsRun(states, steps) && i < k <= |steps| && states[i + 1].top > p && !LostPop(states, steps, p, i, k)
    ensures states[k].top > p
    decreases k
  {
    hide Apply, Enabled, Init;
    if k > i + 1 {
      TopStaysAbove(states, steps, p, i, k - 1);
      InvRun(states, steps, k - 1);
      TopStep(states[k - 1], steps[k - 1]);
    }
  }

  lemma SamePlaceLater(p: int, q: int, n: nat)
    requires n > 0 && p % n == q % n && p < q
    ensures q >= p + n
  {
    if q < p + n {
      SlotsDiffer(p, q, n);
    }
  }

  /**
   * The owner writes a claimed slot again only after its own pop has lost the race for that very element, or after
   * the pushes have gone once around the ring.
   */
  lemma OverwriteNeedsLostPop(states: seq<State>, steps: seq<Step>, t: nat, i: nat, m: nat)
    requires IsRun(states, steps) && i < m < |steps|
    requires steps[i] == StealCas(t) && states[i].age == Thief(states[i], t).seen
    requires steps[m] == WriteSlot && states[m].bottom == states[i].age.top
    ensures LostPop(states, steps, states[i].top, i, m) || states[m].bot >= states[i].top + states[i].n
  {
    var p := states[i].top;
    assert states[i + 1] == Apply(states[i], steps[i]) && Enabled(states[i], steps[i]);
    if !LostPop(states, steps, p, i, m) {
      TopStaysAbove(states, steps, p, i, m);
      InvRun(states, steps, i);
      InvRun(states, steps, m);
      SameCapacity(states, steps, i, m);
      assert Enabled(states[m], steps[m]);
      SamePlaceLater(p, states[m].bot, states[i].n);
    }
  }

  lemma {:induction false} SameCapacity(states: seq<State>, steps: seq<Step>, i: nat, k: nat)
    requires IsRun(states, steps) && i <= k <= |steps|
    ensures states[k].n == states[i].n
    decreases k
  {
    if i < k {
      SameCapacity(states, steps, i, k - 1);
    }
  }

  // ---------------------------------------------------------------------------------------------
  // The stale read
  // ---------------------------------------------------------------------------------------------

  /** A schedule in which the owner loses the race for its only element and pushes again before the thief reads. */
  function RacySteps(): seq<Step> {
    [StartPush, WriteSlot, Publish, StealReadAge(0), StealReadBottom(0), StartPop(0), LowerBottom, ReadTop,
     ReadAge, StealCas(0), OwnerCas, ResetAge, StartPush, WriteSlot, Publish]
  }

  function RacyStates(): seq<State> {
    [
      State(4, 0, Age(0, 0), [7, 7, 7, 7], Idle, map[], 0, [], 0, 0),
      State(4, 0, Age(0, 0), [7, 7, 7, 7], PushWrite, map[], 0, [], 0, 0),
      State(4, 0, Age(0, 0), [0, 7, 7, 7], PushPublish, map[], 0, [], 0, 0),
      State(4, 1, Age(0, 0), [0, 7, 7, 7], Idle, map[], 1, [], 0, 1),
      State(4, 1, Age(0, 0), [0, 7, 7, 7], Idle, map[0 := GotAge(Age(0, 0))], 1, [], 0, 1),
      State(4, 1, Age(0, 0), [0, 7, 7, 7], Idle, map[0 := Ready(Age(0, 0))], 1, [], 0, 1),
      State(4, 1, Age(0, 0), [0, 7, 7, 7], PopDecrement, map[0 := Ready(Age(0, 0))], 1, [], 0, 1),
      State(4, 0, Age(0, 0), [0, 7, 7, 7], PopReadTop, map[0 := Ready(Age(0, 0))], 1, [], 0, 0),
      State(4, 0, Age(0, 0), [0, 7, 7, 7], PopReadAge, map[0 := Ready(Age(0, 0))], 1, [], 0, 0),
      State(4, 0, Age(0, 0), [0, 7, 7, 7], PopCas(Age(0, 0)), map[0 := Ready(Age(0, 0))], 1, [], 0, 0),
      State(4, 0, Age(0, 1), [0, 7, 7, 7], PopCas(Age(0, 0)), map[0 := Claimed(0, 0, false)], 1, [0], 1, 0),
      State(4, 0, Age(0, 1), [0, 7, 7, 7], PopReset(Age(0, 0)), map[0 := Claimed(0, 0, false)], 1, [0], 1, 0),
      State(4, 0, Age(1, 0), [0, 7, 7, 7], Idle, map[0 := Claimed(0, 0, false)], 1, [0], 0, 0),
      State(4, 0, Age(1, 0), [0, 7, 7, 7], PushWrite, map[0 := Claimed(0, 0, false)], 1, [0], 0, 0),
      State(4, 0, Age(1, 0), [1, 7, 7, 7], PushPublish, map[0 := Claimed(0, 0, true)], 1, [0], 0, 0),
      State(4, 1, Age(1, 0), [1, 7, 7, 7], Idle, map[0 := Claimed(0, 0, true)], 2, [0], 0, 1)
    ]
  }

  predicate LeadsTo(s: State, step: Step, s': State) {
    Enabled(s, step) && Apply(s, step) == s'
  }

  lemma RacyPush()
    ensures forall k :: 0 <= k < 3 ==> LeadsTo(RacyStates()[k], RacySteps()[k], RacyStates()[k + 1])
  {
  }

  lemma RacyStealBegins()
    ensures forall k :: 3 <= k < 6 ==> LeadsTo(RacyStates()[k], RacySteps()[k], RacyStates()[k + 1])
  {
  }

  lemma RacyPop()
    ensures forall k :: 6 <= k < 9 ==> LeadsTo(RacyStates()[k], RacySteps()[k], RacyStates()[k + 1])
  {
  }

  lemma RacyStealWins()
    ensures forall k :: 9 <= k < 12 ==> LeadsTo(RacyStates()[k], RacySteps()[k], RacyStates()[k + 1])
  {
  }

  lemma RacyPushAgain()
    ensures forall k :: 12 <= k < 15 ==> LeadsTo(RacyStates()[k], RacySteps()[k], RacyStates()[k + 1])
  {
  }

  /**
   * The thief of that run hands out the second push, which is still queued and unclaimed, so it will be handed out
   * again; nobody gets the first.
   */
  lemma StaleReadHappens()
    ensures IsRun(RacyStates(), RacySteps())
    ensures var s := RacyStates()[15];
            Thief(s, 0) == Claimed(0, 0, true) && s.claims == [0] && s.elems[Thief(s, 0).slot] == 1 &&
            s.top == 0 && End(s) == 1 && s.pushes == 2
  {
    hide Apply, Enabled;
    RacyPush();
    RacyStealBegins();
    RacyPop();
    RacyStealWins();
    RacyPushAgain();
    forall k | 0 <= k < 15
      ensures Enabled(RacyStates()[k], RacySteps()[k])
      ensures RacyStates()[k + 1] == Apply(RacyStates()[k], RacySteps()[k])
    {
      assert LeadsTo(RacyStates()[k], RacySteps()[k], RacyStates()[k + 1]);
    }
  }
}

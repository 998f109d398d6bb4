/** What the operations of the deque give: thieves the oldest push nobody has claimed, the owner the newest. */
module AbpOrder {
  import opened AbpDeque

  predicate Unclaimed(s: State, id: nat) { id < s.pushes && id !in s.claims }

  predicate Oldest(s: State, id: nat) {
    Unclaimed(s, id) && forall other: nat :: other < s.pushes && Unclaimed(s, other) ==> id <= other
  }

  predicate Newest(s: State, id: nat) {
    Unclaimed(s, id) && forall other: nat :: other < s.pushes && Unclaimed(s, other) ==> other <= id
  }

  /** Nothing is left to claim. */
  predicate Drained(s: State) { forall id: nat :: id < s.pushes ==> !Unclaimed(s, id) }

  /** Every unclaimed push is at a live position, and positions are in the order of the pushes. */
  lemma EndsAreExtreme(s: State)
    requires Inv(s)
    ensures s.top < End(s) ==> Oldest(s, s.elems[s.top % s.n]) && Newest(s, s.elems[(End(s) - 1) % s.n])
    ensures s.top >= End(s) ==> Drained(s)
    ensures s.top == End(s) - 1 ==> forall id: nat :: Unclaimed(s, id) ==> id == s.elems[s.top % s.n]
  {
    if s.top < End(s) {
      assert Live(s, s.top) && Live(s, End(s) - 1);
    }
    forall id: nat | Unclaimed(s, id)
      ensures exists p :: s.top <= p < End(s) && s.elems[p % s.n] == id
      ensures s.top < End(s) && s.elems[s.top % s.n] <= id <= s.elems[(End(s) - 1) % s.n]
    {
      var p :| s.top <= p < End(s) && s.elems[p % s.n] == id;
      assert p == s.top || s.elems[s.top % s.n] < id;
      assert p == End(s) - 1 || id < s.elems[(End(s) - 1) % s.n];
    }
  }

  // ---------------------------------------------------------------------------------------------
  // Operations that nobody disturbs
  // ---------------------------------------------------------------------------------------------

  /** The steps can be taken one after the other, and lead from s to `end`. */
  predicate Executes(s: State, steps: seq<Step>, end: State)
    decreases |steps|
  {
    if steps == [] then s == end else Enabled(s, steps[0]) && Executes(Apply(s, steps[0]), steps[1..], end)
  }

  lemma StepOn(s: State, step: Step) returns (after: State)
    requires Inv(s) && Enabled(s, step)
    ensures Inv(after) && after == Apply(s, step)
  {
    hide Inv, Apply;
    InvStep(s, step);
    after := Apply(s, step);
  }

  lemma {:induction false} Then(s: State, a: seq<Step>, mid: State, b: seq<Step>, end: State)
    requires Executes(s, a, mid) && Executes(mid, b, end)
    ensures Executes(s, a + b, end)
    decreases |a|
  {
    hide Apply, Enabled;
    if a == [] {
      assert a + b == b;
    } else {
      assert (a + b)[1..] == a[1..] + b;
      Then(Apply(s, a[0]), a[1..], mid, b, end);
    }
  }

  lemma OneStep(s: State, step: Step, end: State)
    requires Enabled(s, step) && end == Apply(s, step)
    ensures Executes(s, [step], end)
  {
    hide Apply, Enabled;
    assert [step][1..] == [];
  }

  lemma TwoSteps(s: State, a: Step, mid: State, b: Step, end: State)
    requires Enabled(s, a) && mid == Apply(s, a) && Enabled(mid, b) && end == Apply(mid, b)
    ensures Executes(s, [a, b], end)
  {
    hide Apply, Enabled, Executes;
    OneStep(s, a, mid);
    OneStep(mid, b, end);
    Then(s, [a], mid, [b], end);
    assert [a] + [b] == [a, b];
  }

  lemma ThreeSteps(s: State, a: Step, s1: State, b: Step, s2: State, d: Step, end: State)
    requires Enabled(s, a) && s1 == Apply(s, a) && Enabled(s1, b) && s2 == Apply(s1, b)
    requires Enabled(s2, d) && end == Apply(s2, d)
    ensures Executes(s, [a, b, d], end)
  {
    hide Apply, Enabled, Executes;
    TwoSteps(s, a, s1, b, s2);
    OneStep(s2, d, end);
    Then(s, [a, b], s2, [d], end);
    assert [a, b] + [d] == [a, b, d];
  }

  // ---------------------------------------------------------------------------------------------
  // Stealing
  // ---------------------------------------------------------------------------------------------

  /**
   * While the age is still the one it has read, a thief finds the deque empty exactly when it is: no position is left
   * below `bottom`. Then nothing is unclaimed but, at most, the element that the owner is about to pop.
   */
  lemma StealFindsEmptyIff(states: seq<State>, steps: seq<Step>, k: nat, t: nat)
    requires IsRun(states, steps) && k < |steps| && steps[k] == StealReadBottom(t)
    ensures Thief(states[k], t).GotAge?
    ensures var s, seen := states[k], Thief(states[k], t).seen;
            seen == s.age ==>
              Thief(states[k + 1], t) == (if s.bot <= s.top then Resting else Ready(seen)) &&
              (s.bot <= s.top && !InWindow(s) ==> Drained(s)) &&
              (s.bot <= s.top && InWindow(s) ==> forall id: nat :: Unclaimed(s, id) ==> id == s.elems[s.bot % s.n])
  {
    var s := states[k];
    InvRun(states, steps, k);
    assert Enabled(s, steps[k]) && states[k + 1] == Apply(s, steps[k]);
    SizesExact(s.n, s.bot, s.top);
    EndsAreExtreme(s);
  }

  /** A thief's compare-and-swap claims the oldest unclaimed push, if and only if the age is the one it has read. */
  lemma StealClaimsOldest(states: seq<State>, steps: seq<Step>, k: nat, t: nat)
    requires IsRun(states, steps) && k < |steps| && steps[k] == StealCas(t)
    ensures Thief(states[k], t).Ready?
    ensures var s, after := states[k], states[k + 1];
            if Thief(s, t).seen == s.age
            then |after.claims| == |s.claims| + 1 && after.claims[..|s.claims|] == s.claims &&
                 Oldest(s, after.claims[|s.claims|]) && Thief(after, t).Claimed? &&
                 Thief(after, t).id == after.claims[|s.claims|]
            else after.claims == s.claims && Thief(after, t) == Resting
  {
    var s := states[k];
    InvRun(states, steps, k);
    assert Enabled(s, steps[k]) && states[k + 1] == Apply(s, steps[k]);
    assert t in s.thieves;
    assert ThiefOk(s, s.thieves[t]);
    EndsAreExtreme(s);
  }

  /** The steps of a steal that nobody disturbs: with nothing to take it ends before the compare-and-swap. */
  function StealSteps(t: nat, empty: bool): seq<Step> {
    if empty then [StealReadAge(t), StealReadBottom(t)] else [StealReadAge(t), StealReadBottom(t), StealCas(t)]
  }

  /** A steal that nobody disturbs claims the oldest unclaimed push, or gives up exactly when none is below `bottom`. */
  lemma UndisturbedSteal(states: seq<State>, steps: seq<Step>, k: nat, t: nat) returns (after: State)
    requires IsRun(states, steps) && k < |states| && Thief(states[k], t).Resting?
    ensures Executes(states[k], StealSteps(t, states[k].bot <= states[k].top), after)
    ensures if states[k].bot <= states[k].top
            then after.claims == states[k].claims && Thief(after, t).Resting?
            else exists id :: Oldest(states[k], id) && after.claims == states[k].claims + [id] &&
                              Thief(after, t).Claimed? && Thief(after, t).id == id
  {
    InvRun(states, steps, k);
    hide IsRun, Inv, Executes, Oldest;
    after := StealAlone(states[k], t);
  }

  lemma StealAlone(s: State, t: nat) returns (after: State)
    requires Inv(s) && Thief(s, t).Resting?
    ensures Executes(s, StealSteps(t, s.bot <= s.top), after)
    ensures if s.bot <= s.top then after.claims == s.claims && Thief(after, t).Resting?
            else exists id :: Oldest(s, id) && after.claims == s.claims + [id] && Thief(after, t).Claimed? &&
                              Thief(after, t).id == id
  {
    hide Inv, Enabled, Apply, Executes, Oldest, Newest, Drained, Unclaimed;
    var s2 := StealLooks(s, t);
    if s.bot <= s.top {
      after := s2;
    } else {
      after := StealTakes(s2, t);
      Then(s, [StealReadAge(t), StealReadBottom(t)], s2, [StealCas(t)], after);
      assert [StealReadAge(t), StealReadBottom(t)] + [StealCas(t)] == StealSteps(t, false);
      FrontIsOldest(s);
    }
  }

  lemma FrontIsOldest(s: State)
    requires Inv(s) && s.top < s.bot
    ensures s.n > 0 && 0 <= s.top && s.top % s.n < |s.elems| && Oldest(s, s.elems[s.top % s.n])
  {
    EndsAreExtreme(s);
  }

  lemma BackIsNewest(s: State)
    requires Inv(s) && s.owner.Idle? && s.top < s.bot
    ensures s.n > 0 && (s.bot - 1) % s.n < |s.elems| && Newest(s, s.elems[(s.bot - 1) % s.n])
  {
    EndsAreExtreme(s);
  }

  lemma StealLooks(s: State, t: nat) returns (after: State)
    requires Inv(s) && Thief(s, t).Resting?
    ensures Executes(s, [StealReadAge(t), StealReadBottom(t)], after) && Inv(after)
    ensures after == s.(thieves := after.thieves)
    ensures Thief(after, t) == if s.bot <= s.top then Resting else Ready(s.age)
  {
    var s1 := StepOn(s, StealReadAge(t));
    after := StepOn(s1, StealReadBottom(t));
    hide Inv, Executes;
    TwoSteps(s, StealReadAge(t), s1, StealReadBottom(t), after);
    InvSizes(s);
  }

  lemma InvSizes(s: State)
    requires Inv(s)
    ensures s.n >= 2 && s.bottom == s.bot % s.n && s.age.top == s.top % s.n
    ensures CleanSize(s.n, s.bottom, s.age.top) == if s.bot < s.top then 0 else s.bot - s.top
    ensures DirtySize(s.n, s.bottom, s.age.top) == if s.bot < s.top then s.n - 1 else s.bot - s.top
  {
    hide LiveOk, ClaimsOk, ThiefOk;
    SizesExact(s.n, s.bot, s.top);
  }

  lemma StealTakes(s: State, t: nat) returns (after: State)
    requires Inv(s) && Thief(s, t) == Ready(s.age)
    ensures Executes(s, [StealCas(t)], after) && s.n > 0 && s.top % s.n < |s.elems|
    ensures var id := s.elems[s.top % s.n];
            after.claims == s.claims + [id] && Thief(after, t).Claimed? && Thief(after, t).id == id
  {
    after := StepOn(s, StealCas(t));
    OneStep(s, StealCas(t), after);
    hide Executes, LiveOk, ClaimsOk, ThiefOk;
  }

  // ---------------------------------------------------------------------------------------------
  // Pushing
  // ---------------------------------------------------------------------------------------------

  /** A push is refused exactly when n - 2 elements are queued. */
  lemma PushRefusedIff(states: seq<State>, steps: seq<Step>, k: nat)
    requires IsRun(states, steps) && k < |steps| && steps[k] == StartPush
    ensures states[k + 1].owner == if states[k].bot - states[k].top == MaxElems(states[k].n) then Idle else PushWrite
  {
    InvRun(states, steps, k);
    assert Enabled(states[k], steps[k]) && states[k + 1] == Apply(states[k], steps[k]);
    SizesExact(states[k].n, states[k].bot, states[k].top);
  }

  /** Whatever thieves do meanwhile, publishing makes the push the newest unclaimed one. */
  lemma PublishedIsNewest(states: seq<State>, steps: seq<Step>, k: nat)
    requires IsRun(states, steps) && k < |steps| && steps[k] == Publish
    ensures Newest(states[k + 1], states[k].pushes) && states[k + 1].owner.Idle?
    ensures states[k + 1].pushes == states[k].pushes + 1 && states[k + 1].bot == states[k].bot + 1
  {
    InvRun(states, steps, k);
    assert Enabled(states[k], steps[k]) && states[k + 1] == Apply(states[k], steps[k]);
  }

  // ---------------------------------------------------------------------------------------------
  // Popping
  // ---------------------------------------------------------------------------------------------

  /** A pop is refused at once exactly when no more elements are queued than its threshold. */
  lemma PopRefusedIff(states: seq<State>, steps: seq<Step>, k: nat, threshold: nat)
    requires IsRun(states, steps) && k < |steps| && steps[k] == StartPop(threshold)
    ensures states[k + 1].owner == if states[k].bot - states[k].top <= threshold then Idle else PopDecrement
  {
    InvRun(states, steps, k);
    assert Enabled(states[k], steps[k]) && states[k + 1] == Apply(states[k], steps[k]);
    SizesExact(states[k].n, states[k].bot, states[k].top);
  }

  /**
   * After lowering `bottom` the owner claims the newest unclaimed push at once if and only if it is not the last; it
   * races for the last one with a compare-and-swap, and only if no thief has taken that yet.
   */
  lemma PopChooses(states: seq<State>, steps: seq<Step>, k: nat)
    requires IsRun(states, steps) && k < |steps| && (steps[k].ReadTop? || steps[k].ReadAge?)
    ensures var s, after := states[k], states[k + 1];
            if steps[k].ReadTop? && s.top < s.bot
            then after.owner.Idle? && exists id :: Newest(s, id) && after.claims == s.claims + [id]
            else after.claims == s.claims &&
                 after.owner == if steps[k].ReadTop? then PopReadAge
                                else if s.top == s.bot then PopCas(s.age) else PopReset(s.age)
  {
    var s := states[k];
    InvRun(states, steps, k);
    assert Enabled(s, steps[k]) && states[k + 1] == Apply(s, steps[k]);
    SizesExact(s.n, s.bot, s.top);
    EndsAreExtreme(s);
    if steps[k].ReadTop? && s.top < s.bot {
      assert Newest(s, s.elems[s.bot % s.n]);
    } else if s.top == s.bot + 1 {
      SlotsDiffer(s.bot, s.bot + 1, s.n);
    }
  }

  /** The owner's compare-and-swap claims the last element if and only if the age has not changed since it was read. */
  lemma PopClaimsLast(states: seq<State>, steps: seq<Step>, k: nat)
    requires IsRun(states, steps) && k < |steps| && steps[k] == OwnerCas
    ensures states[k].owner.PopCas?
    ensures var s, after := states[k], states[k + 1];
            if s.age == s.owner.seen
            then after.owner.Idle? && Drained(after) &&
                 exists id :: Oldest(s, id) && Newest(s, id) && after.claims == s.claims + [id]
            else after.claims == s.claims && after.owner == PopReset(s.owner.seen)
  {
    var s := states[k];
    InvRun(states, steps, k);
    InvRun(states, steps, k + 1);
    assert Enabled(s, steps[k]) && states[k + 1] == Apply(s, steps[k]);
    EndsAreExtreme(s);
    EndsAreExtreme(states[k + 1]);
    assert OwnerOk(s) && OwnerOk(states[k + 1]) && StolenAge(s.n, s.owner.seen) != s.owner.seen by {
      StolenAgeLater(s.n, s.owner.seen);
    }
    hide Inv, Oldest, Newest, Drained;
    assert s.age == s.owner.seen ==> states[k + 1].claims == s.claims + [s.elems[s.bot % s.n]];
  }

  /** A pop that loses the race leaves nothing unclaimed behind. */
  lemma LostPopDrains(states: seq<State>, steps: seq<Step>, k: nat)
    requires IsRun(states, steps) && k < |steps| && steps[k] == ResetAge
    ensures Drained(states[k + 1]) && states[k + 1].owner.Idle? && states[k + 1].bot == states[k + 1].top
  {
    InvRun(states, steps, k);
    InvRun(states, steps, k + 1);
    assert Enabled(states[k], steps[k]) && states[k + 1] == Apply(states[k], steps[k]);
    EndsAreExtreme(states[k + 1]);
  }

  /** The steps of a pop that nobody disturbs: it must race for the last element. */
  function PopSteps(threshold: nat, last: bool): seq<Step> {
    if last then [StartPop(threshold), LowerBottom, ReadTop, ReadAge, OwnerCas]
    else [StartPop(threshold), LowerBottom, ReadTop]
  }

  /** A pop that nobody disturbs, with more elements queued than its threshold, claims the newest unclaimed push. */
  lemma UndisturbedPop(states: seq<State>, steps: seq<Step>, k: nat, threshold: nat) returns (after: State)
    requires IsRun(states, steps) && k < |states| && states[k].owner.Idle?
    requires states[k].bot - states[k].top > threshold
    ensures Executes(states[k], PopSteps(threshold, states[k].bot - states[k].top == 1), after)
    ensures after.owner.Idle? && after.bot == states[k].bot - 1 &&
            exists id :: Newest(states[k], id) && after.claims == states[k].claims + [id]
  {
    InvRun(states, steps, k);
    hide IsRun, Inv, Executes, Newest;
    after := PopAlone(states[k], threshold);
  }

  lemma PopAlone(s: State, threshold: nat) returns (after: State)
    requires Inv(s) && s.owner.Idle? && s.bot - s.top > threshold
    ensures Executes(s, PopSteps(threshold, s.bot - s.top == 1), after)
    ensures after.owner.Idle? && after.bot == s.bot - 1
    ensures exists id :: Newest(s, id) && after.claims == s.claims + [id]
  {
    hide Inv, Enabled, Apply, Executes, Oldest, Newest, Drained, Unclaimed;
    BackIsNewest(s);
    var s3 := PopStarts(s, threshold);
    if s.bot - s.top == 1 {
      after := PopRaces(s3);
      Then(s, [StartPop(threshold), LowerBottom, ReadTop], s3, [ReadAge, OwnerCas], after);
      assert [StartPop(threshold), LowerBottom, ReadTop] + [ReadAge, OwnerCas] == PopSteps(threshold, true);
    } else {
      after := s3;
    }
  }

  lemma PopStarts(s: State, threshold: nat) returns (after: State)
    requires Inv(s) && s.owner.Idle? && s.bot - s.top > threshold
    ensures Executes(s, [StartPop(threshold), LowerBottom, ReadTop], after) && Inv(after)
    ensures after.elems == s.elems && after.n == s.n && after.bot == s.bot - 1 && after.top == s.top && s.n > 0
    ensures (s.bot - 1) % s.n < |s.elems|
    ensures if s.bot - s.top == 1 then after.owner.PopReadAge? && after.claims == s.claims
            else after.owner.Idle? && after.claims == s.claims + [s.elems[(s.bot - 1) % s.n]]
  {
    InvSizes(s);
    var s1 := StepOn(s, StartPop(threshold));
    var s2 := StepOn(s1, LowerBottom);
    InvSizes(s2);
    after := StepOn(s2, ReadTop);
    hide Inv, Executes;
    ThreeSteps(s, StartPop(threshold), s1, LowerBottom, s2, ReadTop, after);
  }

  lemma PopRaces(s: State) returns (after: State)
    requires Inv(s) && s.owner.PopReadAge? && s.top == s.bot
    ensures Executes(s, [ReadAge, OwnerCas], after) && s.n > 0 && s.bot % s.n < |s.elems|
    ensures after.owner.Idle? && after.bot == s.bot && after.claims == s.claims + [s.elems[s.bot % s.n]]
  {
    InvSizes(s);
    var s1 := StepOn(s, ReadAge);
    after := StepOn(s1, OwnerCas);
    hide Inv, Executes;
    TwoSteps(s, ReadAge, s1, OwnerCas, after);
  }

  /** A push that nobody disturbs, with room left, makes the next number the newest unclaimed push. */
  lemma UndisturbedPush(states: seq<State>, steps: seq<Step>, k: nat) returns (after: State)
    requires IsRun(states, steps) && k < |states| && states[k].owner.Idle?
    requires states[k].bot - states[k].top < MaxElems(states[k].n)
    ensures Executes(states[k], [StartPush, WriteSlot, Publish], after)
    ensures after.owner.Idle? && after.bot == states[k].bot + 1 && after.claims == states[k].claims
    ensures Newest(after, states[k].pushes) && after.pushes == states[k].pushes + 1
  {
    var s := states[k];
    InvRun(states, steps, k);
    InvSizes(s);
    var s1 := StepOn(s, StartPush);
    var s2 := StepOn(s1, WriteSlot);
    var s3 := StepOn(s2, Publish);
    after := s3;
    ThreeSteps(s, StartPush, s1, WriteSlot, s2, Publish, s3);
  }
}

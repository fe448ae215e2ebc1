/** Whole-phase behaviour of a grid holding a single organism: the
    reproduction law seen through the engine, and the order of a tick's
    phases made visible by an organism that only becomes able to reproduce
    through processing. */
module Scenarios {

  import opened Wrappers
  import opened Organisms
  import opened Grid
  import opened Schedule
  import opened World
  import Species

  /** Slot i holds o and every other slot is empty. */
  predicate Lone(pop: Pop, i: nat, o: Org)
  {
    && i < |pop|
    && pop[i] == Some(o)
    && forall k :: 0 <= k < |pop| && k != i ==> pop[k].None?
  }

  /** While the lone organism has not been visited, visiting any other slot
      finds it empty and does nothing. */
  lemma VisitEmptySlot(q: Pop, i: nat, o: Org, x: nat, pick: Position)
    requires Lone(q, i, o) && x != i
    requires ValidPosition(q, pick)
    ensures ReproduceSlot(q, x, pick) == q
  {
  }

  /** Visiting the lone organism at exactly its threshold splits it into two
      organisms at 0 points, in its slot and the chosen one. */
  lemma VisitThresholdOrganism(q: Pop, i: nat, o: Org, j: nat)
    requires Lone(q, i, o)
    requires Species.ReproductionThreshold(o.kind) == Some(GetPoints(o))
    requires j < |q|
    ensures ReproduceSlot(q, i, At(j)) == q[i := Some(SetPoints(o, 0))][j := Some(SetPoints(o, 0))]
  {
    assert Species.CheckReproduction(o) == Birth(SetPoints(o, 0), Some(SetPoints(o, 0)));
  }

  /** After the birth, parent and offspring both sit at 0 points, below their
      threshold, so every further visit changes nothing. */
  lemma VisitAfterBirth(pop: Pop, i: nat, o: Org, j: nat, x: nat, pick: Position)
    requires Lone(pop, i, o)
    requires Species.ReproductionThreshold(o.kind) == Some(GetPoints(o)) && GetPoints(o) > 0
    requires j < |pop|
    requires ValidPosition(pop, pick)
    ensures var q := pop[i := Some(SetPoints(o, 0))][j := Some(SetPoints(o, 0))];
            ReproduceSlot(q, x, pick) == q
  {
    var born := SetPoints(o, 0);
    var q := pop[i := Some(born)][j := Some(born)];
    assert Species.CheckReproduction(born) == Birth(born, None);
    if IsOccupied(q, x) {
      assert q[x] == Some(born);
      assert q[x := Some(born)] == q;
    }
  }

  /** The grid once the lone organism has split: it and its offspring at
      0 points in slots i and j. */
  function Split(pop: Pop, i: nat, o: Org, j: nat): Pop
    requires i < |pop| && j < |pop|
  {
    pop[i := Some(SetPoints(o, 0))][j := Some(SetPoints(o, 0))]
  }

  /** One visit of the reproduction phase, starting either before the split
      (`split` false) or after it. */
  lemma VisitStep(pop: Pop, i: nat, o: Org, j: nat,
                                     split: bool, x: nat, pick: Position)
    requires Lone(pop, i, o)
    requires Species.ReproductionThreshold(o.kind) == Some(GetPoints(o)) && GetPoints(o) > 0
    requires j < |pop| && j != i
    requires ValidPosition(pop, pick)
    requires !split && x == i ==> pick == At(j)
    ensures ReproduceSlot(if split then Split(pop, i, o, j) else pop, x, pick)
            == if split || x == i then Split(pop, i, o, j) else pop
  {
    if split {
      VisitAfterBirth(pop, i, o, j, x, pick);
    } else if x == i {
      VisitThresholdOrganism(pop, i, o, j);
    } else {
      VisitEmptySlot(pop, i, o, x, pick);
    }
  }

  /** The reproduction phase for a lone organism at exactly its threshold,
      whose one birth goes to slot j: if the schedule never visits it nothing
      happens; otherwise it and its offspring end at 0 points in slots i and j. */
  lemma {:induction false} ReproduceLone(pop: Pop, i: nat, o: Org, j: nat, s: seq<nat>, p: seq<Position>)
    requires Lone(pop, i, o)
    requires Species.ReproductionThreshold(o.kind) == Some(GetPoints(o)) && GetPoints(o) > 0
    requires j < |pop| && j != i
    requires |p| == |s| && ValidPicks(|pop|, p)
    requires forall k :: 0 <= k < |s| && s[k] == i ==> p[k] == At(j)
    ensures ReproduceOrgs(pop, s, p) == if i in s then Split(pop, i, o, j) else pop
  {
    if |s| > 0 {
      var n := |s| - 1;
      var x := s[n];
      var split := i in s[..n];
      ReproduceLone(pop, i, o, j, s[..n], p[..n]);
      ReproduceOrgsLast(pop, s, p);
      VisitStep(pop, i, o, j, split, x, p[n]);
      MemberOfLastSplit(s, i);
    }
  }

  /** The reproduction phase over a schedule is its last visit applied after
      the phase over the rest. */
  lemma ReproduceOrgsLast(pop: Pop, s: seq<nat>, p: seq<Position>)
    requires |p| == |s| && ValidPicks(|pop|, p) && |s| > 0
    ensures ReproduceOrgs(pop, s, p)
            == ReproduceSlot(ReproduceOrgs(pop, s[..|s| - 1], p[..|s| - 1]), s[|s| - 1], p[|s| - 1])
  {
  }

  /** A lone organism holding exactly its reproduction threshold, under a
      permutation schedule, reproduces once: parent and offspring both end
      the phase at 0 points, in its slot and the chosen neighbour. */
  lemma LoneOrganismReproduces(pop: Pop, i: nat, o: Org, j: nat, s: seq<nat>, p: seq<Position>)
    requires Lone(pop, i, o)
    requires Species.ReproductionThreshold(o.kind) == Some(GetPoints(o)) && GetPoints(o) > 0
    requires j < |pop| && j != i
    requires IsPermutation(s, |pop|)
    requires |p| == |s| && ValidPicks(|pop|, p)
    requires forall k :: 0 <= k < |s| && s[k] == i ==> p[k] == At(j)
    ensures ReproduceOrgs(pop, s, p) == Split(pop, i, o, j)
  {
    ReproduceLone(pop, i, o, j, s, p);
    Covers(s, |pop|, i);
  }

  /** The split grid holds exactly two organisms. */
  lemma SplitCount(pop: Pop, i: nat, o: Org, j: nat)
    requires Lone(pop, i, o)
    requires j < |pop| && j != i
    ensures NumOrgs(pop) == 1
    ensures NumOrgs(Split(pop, i, o, j)) == 2
  {
    var born := Some(SetPoints(o, 0));
    NumOrgsUpdate(pop, i, None);
    assert NumOrgs(pop[i := None]) == 0;
    NumOrgsUpdate(pop, i, born);
    NumOrgsUpdate(pop[i := born], j, born);
  }

  /** Processing comes before reproduction within a tick: a lone organism 100
      points short of its threshold reaches it in the processing phase and so
      reproduces in the same tick's reproduction phase, after which movement
      acts on the two organisms. */
  lemma ProcessingPrecedesReproduction(pop: Pop, i: nat, o: Org, j: nat,
                                       s1: seq<nat>, s2: seq<nat>, p2: seq<Position>,
                                       s3: seq<nat>, p3: seq<Position>)
    requires Lone(pop, i, o)
    requires Species.ReproductionThreshold(o.kind) == Some(GetPoints(o) + ProcessAmount)
    requires GetPoints(o) >= 0
    requires j < |pop| && j != i
    requires IsPermutation(s1, |pop|) && IsPermutation(s2, |pop|)
    requires |p2| == |s2| && ValidPicks(|pop|, p2)
    requires |p3| == |s3| && ValidPicks(|pop|, p3)
    requires forall k :: 0 <= k < |s2| && s2[k] == i ==> p2[k] == At(j)
    ensures ReproduceOrgs(CallProcess(pop, s1), s2, p2) == Split(pop, i, o, j)
    ensures Update(pop, s1, s2, p2, s3, p3) == MoveOrgs(Split(pop, i, o, j), s3, p3)
  {
    var processed := CallProcess(pop, s1);
    var grown := AddPoints(o, ProcessAmount);
    ProcessedLone(pop, i, o, s1);
    LoneOrganismReproduces(processed, i, grown, j, s2, p2);
    SplitForgetsPoints(processed, pop, i, grown, o, j);
  }

  /** Processing a lone organism under a permutation leaves it lone, 100 points richer. */
  lemma ProcessedLone(pop: Pop, i: nat, o: Org, s: seq<nat>)
    requires Lone(pop, i, o)
    requires IsPermutation(s, |pop|)
    ensures Lone(CallProcess(pop, s), i, AddPoints(o, ProcessAmount))
  {
    CallProcessAddsOnce(pop, s);
  }

  /** The split grid depends on the organism's class and colour only, and not
      on what slot i held before. */
  lemma SplitForgetsPoints(a: Pop, b: Pop, i: nat, oa: Org, ob: Org, j: nat)
    requires |a| == |b| && i < |a| && j < |a|
    requires forall k :: 0 <= k < |a| && k != i ==> a[k] == b[k]
    requires oa.kind == ob.kind && oa.color == ob.color
    ensures Split(a, i, oa, j) == Split(b, i, ob, j)
  {
    assert SetPoints(oa, 0) == SetPoints(ob, 0);
  }

}

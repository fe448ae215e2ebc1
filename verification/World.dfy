/** The world update engine (World.h): the three phases of a tick, each a walk
    over a visiting order of the grid's indices. The random permutation of
    each phase is the `schedule` parameter; the random neighbour chosen at the
    k-th visit of a phase is `picks[k]`, consulted only when that visit needs
    a neighbour. */
module World {

  import opened Wrappers
  import opened Organisms
  import opened Grid
  import opened Schedule
  import Species
  import Cows

  /** Points every occupied organism gains in the processing phase. */
  const ProcessAmount: int := 100

  /** Every neighbour choice names a slot of the grid or no position at all. */
  predicate ValidPicks(size: nat, picks: seq<Position>)
  {
    forall k :: 0 <= k < |picks| ==> picks[k].At? ==> picks[k].index < size
  }

  // ---------------------------------------------------------------------------
  // CallProcess

  /** One visit of CallProcess: an occupied slot's organism gains 100 points,
      an empty slot is skipped. */
  function ProcessSlot(pop: Pop, i: nat): (r: Pop)
    ensures |r| == |pop|
    ensures forall j :: 0 <= j < |pop| ==> (r[j].Some? <==> pop[j].Some?)
    ensures forall j :: 0 <= j < |pop| && j != i ==> r[j] == pop[j]
    ensures IsOccupied(pop, i) ==> r[i] == Some(AddPoints(pop[i].value, ProcessAmount))
    ensures NumOrgs(r) == NumOrgs(pop)
  {
    if !IsOccupied(pop, i) then pop
    else
      NumOrgsUpdate(pop, i, Some(Process(pop[i].value, 100)));
      pop[i := Some(Process(pop[i].value, 100))]
  }

  /** CallProcess over a schedule: no slot becomes occupied or empty, no
      organism changes class or colour, and each organism gains 100 points per
      visit of its slot. */
  function CallProcess(pop: Pop, schedule: seq<nat>): (r: Pop)
    ensures |r| == |pop|
    ensures forall j :: 0 <= j < |pop| ==> (r[j].Some? <==> pop[j].Some?)
    ensures forall j: nat :: j < |pop| && pop[j].Some? ==>
              && r[j].value.kind == pop[j].value.kind
              && GetColor(r[j].value) == GetColor(pop[j].value)
              && GetPoints(r[j].value) == GetPoints(pop[j].value) + ProcessAmount * Occurrences(schedule, j)
    ensures NumOrgs(r) == NumOrgs(pop)
  {
    if |schedule| == 0 then pop
    else ProcessSlot(CallProcess(pop, schedule[..|schedule| - 1]), schedule[|schedule| - 1])
  }

  /** With a permutation schedule, processing adds exactly 100 points to every
      organism, once. */
  lemma CallProcessAddsOnce(pop: Pop, schedule: seq<nat>)
    requires IsPermutation(schedule, |pop|)
    ensures var r := CallProcess(pop, schedule);
            forall j :: 0 <= j < |pop| && pop[j].Some? ==>
                 r[j] == Some(AddPoints(pop[j].value, ProcessAmount))
  {
    var r := CallProcess(pop, schedule);
    forall j | 0 <= j < |pop| && pop[j].Some?
      ensures r[j] == Some(AddPoints(pop[j].value, ProcessAmount))
    {
      OccursOnce(schedule, |pop|, j);
    }
  }

  // ---------------------------------------------------------------------------
  // ReproduceOrgs

  /** One visit of ReproduceOrgs: an occupied slot's organism is asked to
      reproduce; its updated self stays in its slot and any offspring is put
      at the chosen neighbour with AddOrgAt, overwriting a resident without a
      contest. */
  function ReproduceSlot(pop: Pop, i: nat, p: Position): (r: Pop)
    requires ValidPosition(pop, p)
    ensures |r| == |pop|
    ensures !IsOccupied(pop, i) ==> r == pop
    ensures forall j :: 0 <= j < |pop| && pop[j].Some? ==> r[j].Some?
    ensures IsOccupied(pop, i) && Species.CheckReproduction(pop[i].value).offspring.None? ==> r == pop
    ensures IsOccupied(pop, i) && p != At(i) ==>
              r[i] == Some(Species.CheckReproduction(pop[i].value).parent)
    ensures IsOccupied(pop, i) && p.At? ==>
              var b := Species.CheckReproduction(pop[i].value);
              b.offspring.Some? ==> r[p.index] == b.offspring
    ensures forall j :: 0 <= j < |pop| && j != i && (p.Nowhere? || j != p.index) ==> r[j] == pop[j]
    ensures NumOrgs(r) == NumOrgs(pop) +
              (if IsOccupied(pop, i) && p.At? && !IsOccupied(pop, p.index)
                  && Species.CheckReproduction(pop[i].value).offspring.Some?
               then 1 else 0)
    ensures AllNonNegative(pop) ==> AllNonNegative(r)
  {
    if !IsOccupied(pop, i) then pop
    else
      var o := pop[i].value;
      var b := Species.CheckReproduction(o);
      NumOrgsUpdate(pop, i, Some(b.parent));
      var pop1 := pop[i := Some(b.parent)];
      if b.offspring.Some? then
        Species.ReproductionKeepsPointsNonNegative(o);
        AddOrgAt(pop1, p, b.offspring.value)
      else
        pop1
  }

  /** ReproduceOrgs over a schedule: no occupied slot is emptied, so the
      population never shrinks, and it grows by at most one per visit. */
  function ReproduceOrgs(pop: Pop, schedule: seq<nat>, picks: seq<Position>): (r: Pop)
    requires |picks| == |schedule|
    requires ValidPicks(|pop|, picks)
    ensures |r| == |pop|
    ensures forall j :: 0 <= j < |pop| && pop[j].Some? ==> r[j].Some?
    ensures NumOrgs(pop) <= NumOrgs(r) <= NumOrgs(pop) + |schedule|
    ensures AllNonNegative(pop) ==> AllNonNegative(r)
  {
    if |schedule| == 0 then pop
    else
      var n := |schedule| - 1;
      ReproduceSlot(ReproduceOrgs(pop, schedule[..n], picks[..n]), schedule[n], picks[n])
  }

  // ---------------------------------------------------------------------------
  // MoveOrgs

  /** One visit of MoveOrgs: an occupied slot is vacated and its organism is
      offered to the chosen neighbour with AddOrg. Extraction from a slot just
      seen occupied always yields an organism, so the source's error branch
      for a null extraction cannot be taken. */
  function MoveSlot(pop: Pop, i: nat, p: Position): (r: Pop)
    requires ValidPosition(pop, p)
    ensures |r| == |pop|
    ensures !IsOccupied(pop, i) ==> r == pop
    ensures IsOccupied(pop, i) && p == At(i) ==> r == pop
    ensures IsOccupied(pop, i) && p != At(i) ==> !IsOccupied(r, i)
    ensures IsOccupied(pop, i) && p.At? && p.index != i ==>
              var m := pop[i].value;
              if !IsOccupied(pop, p.index) then r[p.index] == Some(m)
              else
                var res := pop[p.index].value;
                if Species.MoverWins(m.kind, res.kind)
                then r[p.index] == Some(AddPoints(m, Species.ContestGain(m.kind, res.kind)))
                else r[p.index] == pop[p.index]
    ensures forall j :: 0 <= j < |pop| && j != i && (p.Nowhere? || j != p.index) ==> r[j] == pop[j]
    ensures NumOrgs(r) == NumOrgs(pop) -
              (if IsOccupied(pop, i) && (p.Nowhere? || (p.index != i && IsOccupied(pop, p.index)))
               then 1 else 0)
    ensures AllNonNegative(pop) ==> AllNonNegative(r)
  {
    if !IsOccupied(pop, i) then pop
    else
      var extracted := ExtractOrganism(pop, i);
      match extracted.0
      case None => assert false; extracted.1
      case Some(org) =>
        AddOrg(extracted.1, org, p)
  }

  /** MoveOrgs over a schedule: movement never adds an organism. */
  function MoveOrgs(pop: Pop, schedule: seq<nat>, picks: seq<Position>): (r: Pop)
    requires |picks| == |schedule|
    requires ValidPicks(|pop|, picks)
    ensures |r| == |pop|
    ensures NumOrgs(r) <= NumOrgs(pop)
    ensures AllNonNegative(pop) ==> AllNonNegative(r)
  {
    if |schedule| == 0 then pop
    else
      var n := |schedule| - 1;
      MoveSlot(MoveOrgs(pop, schedule[..n], picks[..n]), schedule[n], picks[n])
  }

  // ---------------------------------------------------------------------------
  // Update

  /** One tick: processing, then reproduction, then movement, each with its own
      schedule. The grid keeps its size, and non-negative points stay so. */
  function Update(pop: Pop,
                  processSchedule: seq<nat>,
                  reproduceSchedule: seq<nat>, reproducePicks: seq<Position>,
                  moveSchedule: seq<nat>, movePicks: seq<Position>): (r: Pop)
    requires |reproducePicks| == |reproduceSchedule| && ValidPicks(|pop|, reproducePicks)
    requires |movePicks| == |moveSchedule| && ValidPicks(|pop|, movePicks)
    ensures |r| == |pop|
    ensures AllNonNegative(pop) ==> AllNonNegative(r)
    ensures NumOrgs(r) <= NumOrgs(pop) + |reproduceSchedule|
  {
    var processed := CallProcess(pop, processSchedule);
    var reproduced := ReproduceOrgs(processed, reproduceSchedule, reproducePicks);
    MoveOrgs(reproduced, moveSchedule, movePicks)
  }

}

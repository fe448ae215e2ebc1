/** The population grid (the slot-level operations of World.h): a fixed-length
    sequence of optional organisms, addressed by index. */
module Grid {

  import opened Wrappers
  import opened Organisms
  import Species

  /** A world position: a concrete index, or the "no position" value, at which
      anything placed is dropped. */
  datatype Position = At(index: nat) | Nowhere

  /** The population vector: slot i holds at most one organism. */
  type Pop = seq<Option<Org>>

  /** IsOccupied: index i is inside the grid and holds an organism, so the
      population is not empty. */
  predicate IsOccupied(pop: Pop, i: nat)
    ensures IsOccupied(pop, i) ==> NumOrgs(pop) > 0
  {
    i < |pop| && pop[i].Some?
  }

  /** A position that names a slot names one inside the grid. */
  predicate ValidPosition(pop: Pop, p: Position)
  {
    p.At? ==> p.index < |pop|
  }

  /** Every organism in the grid has non-negative points. */
  predicate AllNonNegative(pop: Pop)
  {
    forall j :: 0 <= j < |pop| && pop[j].Some? ==> GetPoints(pop[j].value) >= 0
  }

  /** The population count: the number of occupied slots, never more than the capacity. */
  function NumOrgs(pop: Pop): (n: nat)
    ensures n <= |pop|
    ensures n == 0 <==> forall j :: 0 <= j < |pop| ==> pop[j].None?
  {
    if |pop| == 0 then 0
    else NumOrgs(pop[..|pop| - 1]) + (if pop[|pop| - 1].Some? then 1 else 0)
  }

  /** Writing one slot changes the count by what leaves and what arrives there. */
  lemma {:induction false} NumOrgsUpdate(pop: Pop, i: nat, x: Option<Org>)
    requires i < |pop|
    ensures NumOrgs(pop[i := x]) ==
              NumOrgs(pop) - (if pop[i].Some? then 1 else 0) + (if x.Some? then 1 else 0)
  {
    var n := |pop|;
    var q := pop[i := x];
    if i == n - 1 {
      assert q[..n - 1] == pop[..n - 1];
    } else {
      assert q[..n - 1] == pop[..n - 1][i := x];
      NumOrgsUpdate(pop[..n - 1], i, x);
    }
  }

  /** ExtractOrganism: hands back whatever slot i held (possibly nothing) and
      leaves that slot empty, every other slot as it was. */
  function ExtractOrganism(pop: Pop, i: nat): (r: (Option<Org>, Pop))
    requires i < |pop|
    ensures r.0.Some? <==> IsOccupied(pop, i)
    ensures r.0 == pop[i]
    ensures |r.1| == |pop| && !IsOccupied(r.1, i)
    ensures forall j :: 0 <= j < |pop| && j != i ==> r.1[j] == pop[j]
    ensures NumOrgs(r.1) == NumOrgs(pop) - (if IsOccupied(pop, i) then 1 else 0)
  {
    NumOrgsUpdate(pop, i, None);
    (pop[i], pop[i := None])
  }

  /** Extraction and placement undo each other: putting back what was
      extracted restores the grid, and extracting what was just placed hands
      back that organism. */
  lemma ExtractRestore(pop: Pop, i: nat, org: Org)
    requires i < |pop|
    ensures ExtractOrganism(pop, i).1[i := ExtractOrganism(pop, i).0] == pop
    ensures ExtractOrganism(AddOrgAt(pop, At(i), org), i).0 == Some(org)
  {
  }

  /** AddOrgAt: places the organism at the position, replacing any resident
      without a contest; at no position the organism is dropped. */
  function AddOrgAt(pop: Pop, p: Position, org: Org): (r: Pop)
    requires ValidPosition(pop, p)
    ensures |r| == |pop|
    ensures p.Nowhere? ==> r == pop
    ensures p.At? ==> r[p.index] == Some(org)
    ensures forall j :: 0 <= j < |pop| && (p.Nowhere? || j != p.index) ==> r[j] == pop[j]
    ensures NumOrgs(r) == NumOrgs(pop) + (if p.At? && !IsOccupied(pop, p.index) then 1 else 0)
  {
    match p
    case Nowhere => pop
    case At(j) =>
      NumOrgsUpdate(pop, j, Some(org));
      pop[j := Some(org)]
  }

  /** AddOrg: an empty target takes the organism; an occupied one is contested
      through the mover's Interact, and only a mover Interact names as winner
      replaces the resident; otherwise the mover is dropped. */
  function AddOrg(pop: Pop, org: Org, p: Position): (r: Pop)
    requires ValidPosition(pop, p)
    ensures |r| == |pop|
    ensures p.Nowhere? ==> r == pop
    ensures p.At? && !IsOccupied(pop, p.index) ==> r == pop[p.index := Some(org)]
    ensures p.At? && IsOccupied(pop, p.index) ==>
              var resident := pop[p.index].value;
              if Species.MoverWins(org.kind, resident.kind)
              then r == pop[p.index := Some(AddPoints(org, Species.ContestGain(org.kind, resident.kind)))]
              else r == pop
    ensures NumOrgs(r) == NumOrgs(pop) + (if p.At? && !IsOccupied(pop, p.index) then 1 else 0)
    ensures AllNonNegative(pop) && GetPoints(org) >= 0 ==> AllNonNegative(r)
  {
    if p.At? && IsOccupied(pop, p.index) then
      var resident := pop[p.index].value;
      var contest := Species.Interact(org, resident);
      if contest.winner == Mover then AddOrgAt(pop, p, contest.mover) else pop
    else
      AddOrgAt(pop, p, org)
  }

  /** A base-class organism can never take an occupied cell: its Interact
      names no winner, so it is dropped and the grid is unchanged. */
  lemma BaseMoverIsDropped(pop: Pop, org: Org, j: nat)
    requires org.kind == Kind.Base
    requires IsOccupied(pop, j)
    ensures AddOrg(pop, org, At(j)) == pop
  {
  }

  /** A coyote always takes a target cell, and has gained 200 points when the
      resident was a cow. */
  lemma CoyoteAlwaysTakesCell(pop: Pop, org: Org, j: nat)
    requires org.kind == Kind.Coyote
    requires j < |pop|
    ensures AddOrg(pop, org, At(j))[j].Some?
    ensures var placed := AddOrg(pop, org, At(j))[j].value;
            && placed.kind == Kind.Coyote
            && GetPoints(placed) == GetPoints(org) + (if IsOccupied(pop, j) && pop[j].value.kind == Kind.Cow then 200 else 0)
  {
  }

  /** A cow moving onto a coyote is dropped and the coyote stays. */
  lemma CowYieldsToCoyote(pop: Pop, org: Org, j: nat)
    requires org.kind == Kind.Cow
    requires IsOccupied(pop, j) && pop[j].value.kind == Kind.Coyote
    ensures AddOrg(pop, org, At(j)) == pop
  {
  }

}

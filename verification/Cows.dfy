/** The prey species (Cow.h). */
module Cows {

  import opened Wrappers
  import opened Organisms

  /** Points at which a cow reproduces, and the cost deducted from the parent. */
  const Threshold: int := 300

  const DefaultColor: string := "brown"

  /** The Cow constructor. */
  function New(points: int := 0, color: string := DefaultColor): (o: Org)
    ensures o.kind == Kind.Cow && GetPoints(o) == points && GetColor(o) == color
    ensures TypeName(o.kind) == "Cow"
  {
    Org(Kind.Cow, points, color)
  }

  /** CheckReproduction for a cow: at 300 points or more, a copy of the cow with
      0 points is born and the parent pays 300 points; below that, nothing
      happens at all. */
  function CheckReproduction(o: Org): (b: Birth)
    requires o.kind == Kind.Cow
    ensures b.offspring.Some? <==> GetPoints(o) >= Threshold
    ensures b.offspring.Some? ==>
              && b.offspring.value.kind == Kind.Cow
              && GetColor(b.offspring.value) == GetColor(o)
              && GetPoints(b.offspring.value) == 0
    ensures b.offspring.Some? ==>
              && b.parent.kind == Kind.Cow
              && GetColor(b.parent) == GetColor(o)
              && GetPoints(b.parent) == GetPoints(o) - Threshold
              && GetPoints(b.parent) >= 0
    ensures b.offspring.None? ==> b.parent == o
  {
    if GetPoints(o) >= 300 then
      var offspring := SetPoints(o, 0);
      Birth(AddPoints(o, -300), Some(offspring))
    else
      Birth(o, None)
  }

  /** Interact for a moving cow: the resident keeps its cell exactly when its
      tag says it is a coyote; against anything else (another cow included)
      the cow wins. Neither party's points change. */
  function Interact(mover: Org, resident: Org): (c: Contest)
    requires mover.kind == Kind.Cow
    ensures c.winner == Resident <==> resident.kind == Kind.Coyote
    ensures c.winner == Mover <==> resident.kind != Kind.Coyote
    ensures c.mover == mover
  {
    TypeNameInjective(resident.kind, Kind.Coyote);
    if TypeName(resident.kind) == "Coyote" then
      Contest(Resident, mover)
    else
      Contest(Mover, mover)
  }

}

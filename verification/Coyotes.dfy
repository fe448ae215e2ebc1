/** The predator species (Coyote.h). */
module Coyotes {

  import opened Wrappers
  import opened Organisms

  /** Points at which a coyote reproduces, and the cost deducted from the parent. */
  const Threshold: int := 900

  /** Points a coyote gains by moving onto a cow. */
  const PredationGain: int := 200

  const DefaultColor: string := "grey"

  /** The Coyote constructor. */
  function New(points: int := 0, color: string := DefaultColor): (o: Org)
    ensures o.kind == Kind.Coyote && GetPoints(o) == points && GetColor(o) == color
    ensures TypeName(o.kind) == "Coyote"
  {
    Org(Kind.Coyote, points, color)
  }

  /** CheckReproduction for a coyote: at 900 points or more, a copy of the coyote
      with 0 points is born and the parent pays 900 points; below that, nothing
      happens at all. */
  function CheckReproduction(o: Org): (b: Birth)
    requires o.kind == Kind.Coyote
    ensures b.offspring.Some? <==> GetPoints(o) >= Threshold
    ensures b.offspring.Some? ==>
              && b.offspring.value.kind == Kind.Coyote
              && GetColor(b.offspring.value) == GetColor(o)
              && GetPoints(b.offspring.value) == 0
    ensures b.offspring.Some? ==>
              && b.parent.kind == Kind.Coyote
              && GetColor(b.parent) == GetColor(o)
              && GetPoints(b.parent) == GetPoints(o) - Threshold
              && GetPoints(b.parent) >= 0
    ensures b.offspring.None? ==> b.parent == o
  {
    if GetPoints(o) >= 900 then
      var offspring := SetPoints(o, 0);
      Birth(AddPoints(o, -900), Some(offspring))
    else
      Birth(o, None)
  }

  /** Interact for a moving coyote: the coyote always wins, and it gains 200
      points exactly when the resident's tag says it is a cow. The resident
      is not touched. */
  function Interact(mover: Org, resident: Org): (c: Contest)
    requires mover.kind == Kind.Coyote
    ensures c.winner == Mover
    ensures GetPoints(c.mover) == GetPoints(mover) + (if resident.kind == Kind.Cow then PredationGain else 0)
    ensures c.mover.kind == Kind.Coyote && GetColor(c.mover) == GetColor(mover)
  {
    TypeNameInjective(resident.kind, Kind.Cow);
    if TypeName(resident.kind) == "Cow" then
      Contest(Mover, AddPoints(mover, 200))
    else
      Contest(Mover, mover)
  }

}

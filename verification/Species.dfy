/** Virtual dispatch of the two behaviour hooks on an organism's dynamic class,
    and the species table the hooks are meant to implement. */
module Species {

  import opened Wrappers
  import opened Organisms
  import Cows
  import Coyotes

  /** The reproduction threshold of each class; the base class never reproduces. */
  function ReproductionThreshold(k: Kind): Option<int>
  {
    match k
    case Base => None
    case Cow => Some(300)
    case Coyote => Some(900)
  }

  /** Whether a mover of class m keeps the contested cell against a resident of class r. */
  predicate MoverWins(m: Kind, r: Kind)
  {
    m == Kind.Coyote || (m == Kind.Cow && r != Kind.Coyote)
  }

  /** Points a mover of class m gains from a contest with a resident of class r. */
  function ContestGain(m: Kind, r: Kind): int
  {
    if m == Kind.Coyote && r == Kind.Cow then 200 else 0
  }

  /** pop[i]->CheckReproduction(), dispatched on the organism's class. */
  function CheckReproduction(o: Org): (b: Birth)
    ensures ReproductionThreshold(o.kind).None? ==> b == Birth(o, None)
    ensures ReproductionThreshold(o.kind).Some? ==>
              var t := ReproductionThreshold(o.kind).value;
              && (b.offspring.Some? <==> GetPoints(o) >= t)
              && (b.offspring.Some? ==>
                    && b.offspring.value == Org(o.kind, 0, o.color)
                    && b.parent == Org(o.kind, o.points - t, o.color))
              && (b.offspring.None? ==> b.parent == o)
  {
    match o.kind
    case Base => BaseCheckReproduction(o)
    case Cow => Cows.CheckReproduction(o)
    case Coyote => Coyotes.CheckReproduction(o)
  }

  /** mover->Interact(resident), dispatched on the mover's class. */
  function Interact(mover: Org, resident: Org): (c: Contest)
    ensures c.winner == Mover <==> MoverWins(mover.kind, resident.kind)
    ensures c.winner == Neither <==> mover.kind == Kind.Base
    ensures c.mover == AddPoints(mover, ContestGain(mover.kind, resident.kind))
  {
    match mover.kind
    case Base => BaseInteract(mover, resident)
    case Cow => Cows.Interact(mover, resident)
    case Coyote => Coyotes.Interact(mover, resident)
  }

  /** Reproduction never drives points negative: a parent that had
      non-negative points still has them, and an offspring starts at zero. */
  lemma ReproductionKeepsPointsNonNegative(o: Org)
    requires GetPoints(o) >= 0
    ensures GetPoints(CheckReproduction(o).parent) >= 0
    ensures CheckReproduction(o).offspring.Some? ==> GetPoints(CheckReproduction(o).offspring.value) == 0
  {
  }

  /** Reproduction conserves points: the parent's points before equal the
      parent's and offspring's points after plus the threshold paid. */
  lemma ReproductionConservesPoints(o: Org)
    requires CheckReproduction(o).offspring.Some?
    ensures ReproductionThreshold(o.kind).Some?
    ensures GetPoints(o) == GetPoints(CheckReproduction(o).parent)
                            + GetPoints(CheckReproduction(o).offspring.value)
                            + ReproductionThreshold(o.kind).value
  {
  }

  /** The predator-prey encounters: a coyote moving onto a cow wins and gains
      200; a cow moving onto a coyote loses; two cows or two coyotes: the mover wins
      and gains nothing. */
  lemma Encounters(cow: Org, coyote: Org, other: Org)
    requires cow.kind == Kind.Cow && coyote.kind == Kind.Coyote && other.kind == Kind.Cow
    ensures Interact(coyote, cow) == Contest(Mover, AddPoints(coyote, 200))
    ensures Interact(cow, coyote) == Contest(Resident, cow)
    ensures Interact(cow, other) == Contest(Mover, cow)
    ensures Interact(coyote, coyote) == Contest(Mover, coyote)
  {
  }

}

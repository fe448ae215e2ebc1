/** The organism contract shared by every species (Org.h): integer energy
    ("points"), a display colour, a type tag, and the two behaviour hooks
    whose base versions do nothing. */
module Organisms {

  import opened Wrappers

  /** The dynamic class of an organism: the base class or one of the two species. */
  datatype Kind = Base | Cow | Coyote

  /** An organism. Points are stored as a floating-point number in the source
      but only ever change by whole amounts, so they are integers here. */
  datatype Org = Org(kind: Kind, points: int, color: string)

  /** Outcome of CheckReproduction: the parent as it is afterwards, and the
      offspring if one was produced. */
  datatype Birth = Birth(parent: Org, offspring: Option<Org>)

  /** Which organism Interact names as the one that should hold the contested
      cell; Neither stands for the base class returning null. */
  datatype Winner = Mover | Resident | Neither

  /** Outcome of Interact: the verdict, and the mover with any change Interact
      made to its points. The resident is never changed by Interact. */
  datatype Contest = Contest(winner: Winner, mover: Org)

  const BaseColor: string := "black"

  /** A base-class organism, as built by the Organism constructor. */
  function NewOrganism(points: int := 0, color: string := BaseColor): (o: Org)
    ensures o.kind == Base && GetPoints(o) == points && GetColor(o) == color
  {
    Org(Base, points, color)
  }

  /** GetType: the tag each class reports about itself. */
  function TypeName(k: Kind): (name: string)
    ensures name == "Organism" <==> k == Kind.Base
    ensures name == "Cow" <==> k == Kind.Cow
    ensures name == "Coyote" <==> k == Kind.Coyote
  {
    match k
    case Base => "Organism"
    case Cow => "Cow"
    case Coyote => "Coyote"
  }

  /** Distinct classes report distinct tags, so comparing tags is comparing classes. */
  lemma TypeNameInjective(a: Kind, b: Kind)
    ensures TypeName(a) == TypeName(b) <==> a == b
  {
    assert |TypeName(Base)| == 8 && |TypeName(Cow)| == 3 && |TypeName(Coyote)| == 6;
  }

  /** GetPoints: points read as an int; the value read is the value stored. */
  function GetPoints(o: Org): (p: int)
    ensures o.(points := p) == o
  {
    o.points
  }

  /** GetColor and getColor: both return the stored colour (no species overrides getColor). */
  function GetColor(o: Org): (c: string)
    ensures o.(color := c) == o
  {
    o.color
  }

  /** SetPoints: points become exactly v; nothing else changes. */
  function SetPoints(o: Org, v: int): (r: Org)
    ensures GetPoints(r) == v
    ensures r.kind == o.kind && GetColor(r) == GetColor(o)
  {
    o.(points := v)
  }

  /** AddPoints: points change by exactly d (which may be negative); nothing else changes. */
  function AddPoints(o: Org, d: int): (r: Org)
    ensures GetPoints(r) == GetPoints(o) + d
    ensures r.kind == o.kind && GetColor(r) == GetColor(o)
  {
    o.(points := o.points + d)
  }

  /** Process: the per-tick energy gain, an increase of exactly n points. */
  function Process(o: Org, n: int): (r: Org)
    ensures GetPoints(r) == GetPoints(o) + n
    ensures r.kind == o.kind && GetColor(r) == GetColor(o)
  {
    AddPoints(o, n)
  }

  /** Processing is the same as adding points, and successive additions compose. */
  lemma PointUpdatesCompose(o: Org, a: int, b: int)
    ensures Process(o, a) == AddPoints(o, a)
    ensures AddPoints(AddPoints(o, a), b) == AddPoints(o, a + b)
    ensures SetPoints(AddPoints(o, a), b) == SetPoints(o, b)
    ensures SetPoints(o, GetPoints(o)) == o
  {
  }

  /** The base CheckReproduction: never an offspring, and the organism is untouched. */
  function BaseCheckReproduction(o: Org): (b: Birth)
    ensures b.offspring.None?
    ensures b.parent == o
  {
    Birth(o, None)
  }

  /** The base Interact: returns null, so it names neither party and changes nothing. */
  function BaseInteract(mover: Org, resident: Org): (c: Contest)
    ensures c.winner == Neither
    ensures c.mover == mover
  {
    Contest(Neither, mover)
  }

}

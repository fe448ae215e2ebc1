# Predator–prey world: a Dafny model of the update engine

This project models the core of a small artificial-ecology simulation. Cows
(prey) and coyotes (predators) live on a grid of slots. On every tick of the
world each organism gains energy ("points"). An organism with enough points
reproduces into a neighbouring slot, and then every organism moves to a
neighbour. When it moves into an occupied slot, the mover's own species rule
decides who keeps the slot.

Modules, following the program's files:

- `Wrappers`: `Option`, the stand-in for a null organism pointer.
- `Organisms` (Org.h): the organism record (class, integer points, colour), the point
  accessors, the type tag, and the base-class `CheckReproduction`/`Interact`.
- `Cows` (Cow.h) and `Coyotes` (Coyote.h): the species' thresholds (300, 900),
  interaction rules, predation gain (200), tags and default colours.
- `Species`: virtual dispatch of the two hooks on the organism's class, stated
  against a species table: thresholds, who wins, and what the mover gains.
- `Schedule`: visiting orders; a permutation of `[0, n)` visits every index once.
- `Grid` (World.h slot operations): the population as `seq<Option<Org>>`, the
  population count, `ExtractOrganism`, `AddOrgAt` (overwrite, no contest) and
  `AddOrg` (contest through the mover's `Interact`).
- `World` (World.h phases): `CallProcess`, `ReproduceOrgs`, `MoveOrgs` and
  `Update`. Each phase is a fold over its schedule, one visit at a time.
- `Scenarios`: whole-phase behaviour of a grid that holds a single organism.

Randomness is a set of parameters. Each phase takes a `schedule` (the random
permutation the source draws) and a sequence of `picks`: `picks[k]` is the
neighbour that the k-th visit uses if it needs one. A pick is either a slot
index inside the grid or `Nowhere`, the "no position" value. An organism sent
to `Nowhere` is dropped. The phases accept any schedule. The
properties that need each index visited exactly once, such as
`CallProcessAddsOnce`, require a permutation.

Three behaviours of the code that the model keeps:

- Offspring are placed with `AddOrgAt` (World.h:84). This overwrites any
  resident without a contest.
- The base `Interact` returns null (Org.h:93-95). The model treats this as the
  verdict `Neither`, so a base-class mover is dropped whenever its target is
  occupied. An empty target still takes it (World.h:107-108).
- The base class of the world library runs its own update before the three
  phases (World.h:150). The model treats that update as not touching the
  population.

## Model

| member | source | states |
|---|---|---|
| Organisms.NewOrganism | Org.h:15-16 | a base organism has the base class, the given points, and the given colour (default black) |
| Organisms.TypeNameInjective | Org.h:85-87 | the three type tags "Organism", "Cow", "Coyote" are pairwise distinct, so comparing tags compares classes |
| Organisms.TypeName | Org.h:85-87 | the tag is "Organism" exactly for the base class, "Cow" exactly for a cow (Cow.h:24-26), "Coyote" exactly for a coyote (Coyote.h:21-23) |
| Organisms.GetPoints | Org.h:23 | the points read are the points stored: writing them back changes nothing |
| Organisms.GetColor | Org.h:44 | GetColor and getColor (Org.h:64) read the stored colour: writing it back changes nothing |
| Organisms.SetPoints | Org.h:30 | points become exactly the given value; class and colour are unchanged |
| Organisms.AddPoints | Org.h:37 | points change by exactly the given amount; class and colour are unchanged |
| Organisms.Process | Org.h:53-55 | processing raises points by exactly n; class and colour are unchanged |
| Organisms.PointUpdatesCompose | Org.h:23-55 | Process(n) is AddPoints(n); two additions compose into one; a set overrides an earlier add; setting to the current value changes nothing |
| Organisms.BaseCheckReproduction | Org.h:73-75 | the base class never yields an offspring and leaves the organism unchanged |
| Organisms.BaseInteract | Org.h:93-95 | the base class names no winner and does not change the mover |
| Cows.New | Cow.h:14-15 | a cow has class Cow, tag "Cow", the given points, and the given colour (default brown) |
| Cows.CheckReproduction | Cow.h:37-46 | an offspring exists iff points >= 300; it is a cow with the parent's colour and 0 points; the parent then has exactly 300 fewer points, still >= 0; with no offspring the parent is unchanged |
| Cows.Interact | Cow.h:58-64 | the resident wins iff it is a coyote; otherwise (cow against cow included) the mover wins; the mover's points are unchanged |
| Coyotes.New | Coyote.h:11-12 | a coyote has class Coyote, tag "Coyote", the given points, and the given colour (default grey) |
| Coyotes.CheckReproduction | Coyote.h:34-43 | an offspring exists iff points >= 900; it is a coyote with the parent's colour and 0 points; the parent then has exactly 900 fewer points, still >= 0; with no offspring the parent is unchanged |
| Coyotes.Interact | Coyote.h:54-59 | the mover always wins; it gains exactly 200 points when the resident is a cow and nothing otherwise; class and colour are unchanged |
| Species.CheckReproduction | World.h:82 | the dispatched hook obeys the threshold law for every class: the base class never reproduces; a species at or above its threshold yields a 0-point copy and pays the threshold; below it, nothing changes |
| Species.Interact | World.h:103 | the dispatched hook: the mover wins iff it is a coyote, or a cow meeting a non-coyote; no winner iff the mover is a base organism; the mover gains exactly the species-table amount |
| Species.ReproductionKeepsPointsNonNegative | Cow.h:38-41 | a parent with non-negative points keeps them non-negative after reproducing; the offspring starts at 0 |
| Species.ReproductionConservesPoints | Coyote.h:35-39 | when an offspring is born, the parent's points before equal parent + offspring after, plus the threshold |
| Species.Encounters | Coyote.h:54-59 | coyote onto cow: the coyote wins with +200; cow onto coyote: the coyote stays; cow onto cow and coyote onto coyote: the mover wins and gains nothing |
| Grid.IsOccupied | World.h:63 | a slot is occupied when it is inside the grid and holds an organism; an occupied slot means the number of occupied slots is positive |
| Grid.NumOrgs | World.h:34-36 | the number of occupied slots of the population vector never exceeds the grid size, and it is 0 iff every slot is empty |
| Grid.ExtractOrganism | World.h:47-51 | returns exactly what slot i held (possibly nothing), leaves slot i empty and every other slot unchanged; the count drops by one iff slot i was occupied |
| Grid.ExtractRestore | World.h:47-51 | extraction and placement undo each other: putting the extracted value back restores the grid, and extracting a just-placed organism returns it |
| Grid.AddOrgAt | World.h:84 | the organism lands in the target slot, replacing any resident without a contest; no other slot changes; at no position nothing changes; the count grows by one iff the target was empty |
| Grid.AddOrg | World.h:100-110 | an empty target takes the mover; at an occupied target the mover (with its Interact gain) replaces the resident iff its Interact names it winner, otherwise the grid is unchanged; the count grows only for an empty target; non-negative points stay non-negative |
| Grid.BaseMoverIsDropped | World.h:104 | a base-class organism moving onto an occupied slot is dropped and the grid is unchanged |
| Grid.CoyoteAlwaysTakesCell | World.h:103-105 | a coyote sent to any slot ends up there, with 200 more points iff it displaced a cow |
| Grid.CowYieldsToCoyote | Cow.h:59-60 | a cow moving onto a coyote is dropped and the grid is unchanged |
| World.ProcessSlot | World.h:63-66 | a visit adds exactly 100 points to an occupied slot's organism, skips an empty slot, and changes no other slot and no occupancy |
| World.CallProcess | World.h:60-68 | occupancy, class and colour of every slot are unchanged, the count is unchanged, and each organism gains 100 points per visit of its slot |
| World.CallProcessAddsOnce | World.h:61-66 | with a permutation schedule every organism gains exactly 100 points, once |
| Schedule.OccursOnce | World.h:61 | a permutation of the indices below n visits each of them exactly once |
| World.ReproduceSlot | World.h:80-85 | an empty slot or an organism below its threshold leaves the grid unchanged; otherwise slot i holds the parent after paying its threshold (unless the offspring lands on i itself), the offspring lands at the chosen slot whatever was there, and no other slot changes; no slot is emptied; the count grows by one exactly when a birth lands on an empty slot |
| World.ReproduceOrgs | World.h:77-88 | no occupied slot is emptied; the count never decreases and grows by at most one per visit; non-negative points stay non-negative |
| World.MoveSlot | World.h:127-137 | extraction from a slot just seen occupied always yields an organism (the error branch is unreachable); moving back onto its own slot changes nothing; otherwise the source slot ends empty; another empty target receives the mover; an occupied target receives the mover with its contest gain iff the mover's rule wins, and is unchanged otherwise; no slot other than the source and the target changes; the count drops by one exactly when the mover goes to no position or onto another occupied slot |
| World.MoveOrgs | World.h:124-140 | movement never increases the count; non-negative points stay non-negative |
| World.Update | World.h:148-156 | a tick keeps the grid size and non-negative points; the count grows by at most one per reproduction visit |
| Scenarios.LoneOrganismReproduces | World.h:77-88 | a lone organism at exactly its threshold, under a permutation schedule, ends the phase as two organisms of its class and colour at 0 points, in its slot and the chosen neighbour, all other slots empty |
| Scenarios.SplitCount | World.h:82-84 | that split turns a population of one into a population of two |
| Scenarios.ProcessingPrecedesReproduction | World.h:152-154 | a lone organism 100 points short of its threshold reaches it in processing and splits in the same tick's reproduction phase, so processing runs before reproduction; movement then acts on the split grid |

## Left out

- Rendering, the toggle and step buttons, and the page text (AEAnimate.cpp) are user interface.
- The console driver (native.cpp) runs 25 ticks and prints the library's organism counter. The result depends on the library's random generator, which is not part of this model.
- Random permutations and the grid geometry of the neighbour choice are library code. They are the `schedule` and `picks` parameters here. A pick names a slot inside the grid or no position.
- `Resize`, `SetPopStruct_Grid`, the library's own update step, and its cached organism counter (`GetNumOrgs`) are not part of this model. The population count here is the number of occupied slots.
- `ExtractOrganism` clears a slot by writing the population vector directly (World.h:49), past whatever removal bookkeeping the library does. The library's counter may therefore drift from the number of occupied slots. The library's code is not part of this model, so no claim is made about that counter.
- Points are stored as `double` in the source but read through an `int` getter. Only whole amounts are ever added, so points are unbounded integers here.
- Pointer identity and memory management are not modelled. This covers `winOrg == extOrg`, raw `new`, and losers that are never freed. `Interact` returns a verdict (mover, resident, neither) together with the updated mover.
- The error message printed on a null extraction is not modelled. The branch is proved unreachable instead.
- The colour is a plain string that no operation changes. Colour values beyond the defaults are not interpreted.
- Determinism across runs is not stated as a lemma. Every operation here is a function of its inputs.
- Organism identity is not tracked, so the claim that a removed organism never reappears is not stated.

/** The configuration record of the slime simulation: the `SlimeSettings` asset
    and its per-species `SpeciesSettings` entries, with their default values
    and the lower bounds their `[Min]` annotations declare. */
module Settings {

  /** How agents are placed when the simulation starts. The order is the
      declaration order, so `Random` is the enum's default value. */
  datatype SpawnMode = Random | Point | InwardCircle | RandomCircle

  /** An RGBA colour, channels as exact reals. */
  datatype Colour = Colour(r: real, g: real, b: real, a: real)

  /** Unity's `Color.black`. */
  const Black: Colour := Colour(0.0, 0.0, 0.0, 1.0)

  /** Unity's `Color.green`. */
  const Green: Colour := Colour(0.0, 1.0, 0.0, 1.0)

  /** Per-species movement, sensor and display parameters. */
  datatype SpeciesSettings = SpeciesSettings(
    moveSpeed: real,
    turnSpeed: real,
    foodEatRate: real,
    sensorAngleSpacing: real,
    sensorOffsetDst: real,
    sensorSize: int,
    foodWeight: real,
    colour: Colour)

  /** The whole simulation configuration. The number of species is not a
      field: it is the length of `speciesSettings`. */
  datatype SlimeSettings = SlimeSettings(
    stepsPerFrame: int,
    width: int,
    height: int,
    numAgents: int,
    spawnMode: SpawnMode,
    trailWeight: real,
    decayRate: real,
    diffuseRate: real,
    brushSize: int,
    foodColor: Colour,
    speciesSettings: seq<SpeciesSettings>)
  {
    function NumSpecies(): nat {
      |speciesSettings|
    }
  }

  /** The `[Min(0)]` and `[Min(1)]` bounds of one species entry. */
  predicate ValidSpecies(s: SpeciesSettings) {
    s.foodEatRate >= 0.0 && s.sensorSize >= 1
  }

  /** The bounds the configuration declares: at least one step per frame,
      and every species entry within its own bounds. */
  predicate Valid(s: SlimeSettings) {
    s.stepsPerFrame >= 1 &&
    forall i :: 0 <= i < |s.speciesSettings| ==> ValidSpecies(s.speciesSettings[i])
  }

  /** A species entry as C# creates it when nothing is assigned: every field zero. */
  const ZeroSpecies: SpeciesSettings :=
    SpeciesSettings(0.0, 0.0, 0.0, 0.0, 0.0, 0, 0.0, Colour(0.0, 0.0, 0.0, 0.0))

  /** A freshly created settings asset: the declared initialisers, the first
      spawn mode, and an empty species array. */
  const Defaults: SlimeSettings :=
    SlimeSettings(
      stepsPerFrame := 1,
      width := 1280,
      height := 720,
      numAgents := 100,
      spawnMode := Random,
      trailWeight := 1.0,
      decayRate := 1.0,
      diffuseRate := 1.0,
      brushSize := 1,
      foodColor := Green,
      speciesSettings := [])

  /** Replacing the species array of the defaults by entries that keep their
      own bounds gives a configuration within all declared bounds. */
  lemma DefaultsValid(species: seq<SpeciesSettings>)
    requires forall i :: 0 <= i < |species| ==> ValidSpecies(species[i])
    ensures Valid(Defaults.(speciesSettings := species))
    ensures Defaults.(speciesSettings := species).NumSpecies() == |species|
  {
  }

  /** The default values the rest of the model relies on. */
  lemma DefaultValues()
    ensures Defaults.stepsPerFrame == 1
    ensures Defaults.width == 1280 && Defaults.height == 720
    ensures Defaults.numAgents == 100
    ensures Defaults.trailWeight == 1.0 && Defaults.decayRate == 1.0 && Defaults.diffuseRate == 1.0
    ensures Defaults.brushSize == 1
    ensures Defaults.foodColor == Green
    ensures Defaults.NumSpecies() == 0
  {
  }

  /** An entry left at its zero value breaks the `[Min(1)]` bound on the
      sensor size, so the bound is a constraint on what an author enters. */
  lemma ZeroSpeciesInvalid()
    ensures !ValidSpecies(ZeroSpecies)
    ensures ZeroSpecies.foodEatRate >= 0.0
  {
  }
}

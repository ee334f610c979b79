/** Agent creation: where each agent starts, which way it heads, and which
    species (and so which trail channel) it belongs to. The random values the
    creation loop draws are supplied per agent, so creation is a function of
    the settings and those draws. */
module Agents {
  import opened Settings

  datatype Vec2 = Vec2(x: real, y: real)

  datatype Vec3Int = Vec3Int(x: int, y: int, z: int)

  /** Unity's `Vector3Int.one`: every channel selected. */
  const AllChannels: Vec3Int := Vec3Int(1, 1, 1)

  /** One agent as it is uploaded to the agent buffer. */
  datatype Agent = Agent(position: Vec2, angle: real, speciesMask: Vec3Int, speciesIndex: int)

  /** Unity's `Mathf.PI`, the printed single-precision value of pi. */
  const Pi: real := 3.14159274

  /** The random values one iteration of the creation loop draws:
      `Random.value`, the two `Random.Range` coordinates of the Random spawn
      mode, `Random.insideUnitCircle`, the heading the InwardCircle mode
      computes towards the centre, and the species `Random.Range`. */
  datatype AgentDraws = AgentDraws(
    value: real,
    rangeX: int,
    rangeY: int,
    unitCircle: Vec2,
    inwardAngle: real,
    species: int)

  /** What the integer `Random.Range(lo, hi)` can return: a value of
      [lo, hi), or lo itself when the range is empty. */
  predicate RangeDraw(lo: int, hi: int, v: int) {
    if lo < hi then lo <= v < hi else v == lo
  }

  /** The draws are ones Unity's generator can produce for these settings. */
  predicate DrawsFit(s: SlimeSettings, d: AgentDraws) {
    0.0 <= d.value <= 1.0 &&
    RangeDraw(0, s.width, d.rangeX) &&
    RangeDraw(0, s.height, d.rangeY) &&
    InUnitDisk(d.unitCircle) &&
    SpeciesDrawFits(s.NumSpecies(), d.species)
  }

  predicate InUnitDisk(v: Vec2) {
    v.x * v.x + v.y * v.y <= 1.0
  }

  /** What `Random.Range(1, numSpecies + 1)` can return. */
  predicate SpeciesDrawFits(numSpecies: nat, species: int) {
    RangeDraw(1, numSpecies + 1, species)
  }

  /** C#'s `n / 2` on an int, which truncates toward zero. */
  function Half(n: int): (h: int)
    ensures n >= 0 ==> 0 <= h && 2 * h <= n < 2 * h + 2
    ensures n < 0 ==> h <= 0 && 2 * h - 2 < n <= 2 * h
  {
    if n >= 0 then n / 2 else -((-n) / 2)
  }

  /** The field centre, computed with integer division: whole coordinates,
      each half its size rounded down for a non-negative size. */
  function Centre(s: SlimeSettings): (c: Vec2)
    ensures c.x == c.x.Floor as real && c.y == c.y.Floor as real
    ensures s.width >= 0 ==> 0.0 <= 2.0 * c.x <= s.width as real < 2.0 * c.x + 2.0
    ensures s.height >= 0 ==> 0.0 <= 2.0 * c.y <= s.height as real < 2.0 * c.y + 2.0
  {
    Vec2(Half(s.width) as real, Half(s.height) as real)
  }

  /** `centre + unit * radius`, in exact arithmetic. */
  function Offset(centre: Vec2, unit: Vec2, radius: real): Vec2 {
    Vec2(centre.x + unit.x * radius, centre.y + unit.y * radius)
  }

  /** `Random.value * Mathf.PI * 2`. */
  function RandomAngle(d: AgentDraws): real {
    d.value * Pi * 2.0
  }

  /** The start position of an agent under the configured spawn mode. */
  function StartPosition(s: SlimeSettings, d: AgentDraws): Vec2 {
    match s.spawnMode
    case Point => Centre(s)
    case Random => Vec2(d.rangeX as real, d.rangeY as real)
    case InwardCircle => Offset(Centre(s), d.unitCircle, s.height as real * 0.5)
    case RandomCircle => Offset(Centre(s), d.unitCircle, s.height as real * 0.15)
  }

  /** The start heading: towards the centre for InwardCircle, the random
      angle otherwise. */
  function StartAngle(s: SlimeSettings, d: AgentDraws): real {
    if s.spawnMode == InwardCircle then d.inwardAngle else RandomAngle(d)
  }

  /** Channel k (0, 1 or 2) of a mask. */
  function Channel(m: Vec3Int, k: int): int
    requires 0 <= k < 3
  {
    if k == 0 then m.x else if k == 1 then m.y else m.z
  }

  /** The number of selected channels of a 0/1 mask. */
  function Selected(m: Vec3Int): int {
    m.x + m.y + m.z
  }

  datatype SpeciesChoice = SpeciesChoice(mask: Vec3Int, index: int)

  /** Species assignment: with one species every agent gets all three
      channels and index 0; otherwise the drawn species (counted from 1)
      selects index `species - 1` and only the channel of that index. */
  function AssignSpecies(numSpecies: nat, species: int): (r: SpeciesChoice)
    ensures forall k :: 0 <= k < 3 ==> Channel(r.mask, k) == 0 || Channel(r.mask, k) == 1
    ensures numSpecies != 1 ==> forall k :: 0 <= k < 3 ==> (Channel(r.mask, k) == 1 <==> r.index == k)
  {
    if numSpecies == 1 then
      SpeciesChoice(AllChannels, 0)
    else
      SpeciesChoice(
        Vec3Int(if species == 1 then 1 else 0, if species == 2 then 1 else 0, if species == 3 then 1 else 0),
        species - 1)
  }

  /** The agent one iteration of the creation loop builds. */
  function MakeAgent(s: SlimeSettings, d: AgentDraws): Agent {
    var choice := AssignSpecies(s.NumSpecies(), d.species);
    Agent(StartPosition(s, d), StartAngle(s, d), choice.mask, choice.index)
  }

  /** Builds `numAgents` agents; slot i is built from the i-th draws. */
  method InitAgents(s: SlimeSettings, draws: seq<AgentDraws>) returns (agents: array<Agent>)
    requires |draws| == s.numAgents
    ensures fresh(agents)
    ensures agents.Length == s.numAgents
    ensures forall i :: 0 <= i < agents.Length ==> agents[i] == MakeAgent(s, draws[i])
  {
    agents := new Agent[|draws|];
    for i := 0 to agents.Length
      invariant forall j :: 0 <= j < i ==> agents[j] == MakeAgent(s, draws[j])
    {
      agents[i] := MakeAgent(s, draws[i]);
    }
  }

  /** The species fields of an agent agree with the configuration: the
      index names a configured species and the mask is 0/1 per channel. */
  predicate SpeciesFit(numSpecies: nat, a: Agent) {
    0 <= a.speciesIndex < numSpecies &&
    forall k :: 0 <= k < 3 ==> Channel(a.speciesMask, k) == 0 || Channel(a.speciesMask, k) == 1
  }

  /** With exactly one species every agent deposits on all three channels
      and belongs to species 0. */
  lemma SingleSpecies(s: SlimeSettings, d: AgentDraws)
    requires s.NumSpecies() == 1
    ensures MakeAgent(s, d).speciesMask == AllChannels
    ensures MakeAgent(s, d).speciesIndex == 0
  {
  }

  /** With at least one species, every created agent names a configured species. */
  lemma {:induction false} CreatedSpeciesFit(s: SlimeSettings, d: AgentDraws)
    requires SpeciesDrawFits(s.NumSpecies(), d.species) && s.NumSpecies() >= 1
    ensures SpeciesFit(s.NumSpecies(), MakeAgent(s, d))
  {
  }

  /** With several species, the mask is one-hot exactly when the drawn
      species is one of the first three, and all zero beyond them. */
  lemma SeveralSpecies(s: SlimeSettings, d: AgentDraws)
    requires SpeciesDrawFits(s.NumSpecies(), d.species) && s.NumSpecies() >= 2
    ensures MakeAgent(s, d).speciesIndex == d.species - 1
    ensures 0 <= MakeAgent(s, d).speciesIndex < s.NumSpecies()
    ensures Selected(MakeAgent(s, d).speciesMask) == 1 <==> d.species <= 3
    ensures MakeAgent(s, d).speciesMask == Vec3Int(0, 0, 0) <==> d.species > 3
    ensures forall k :: 0 <= k < 3 ==> (Channel(MakeAgent(s, d).speciesMask, k) == 1 <==> d.species == k + 1)
  {
    var choice := AssignSpecies(s.NumSpecies(), d.species);
    assert MakeAgent(s, d).speciesMask == choice.mask;
    assert choice.mask == Vec3Int(if d.species == 1 then 1 else 0, if d.species == 2 then 1 else 0, if d.species == 3 then 1 else 0);
  }

  /** With no species configured the species draw is 1, so the agent gets
      index 0, which names no configured species, and channel 0. */
  lemma NoSpecies(s: SlimeSettings, d: AgentDraws)
    requires SpeciesDrawFits(s.NumSpecies(), d.species) && s.NumSpecies() == 0
    ensures MakeAgent(s, d).speciesIndex == 0
    ensures MakeAgent(s, d).speciesMask == Vec3Int(1, 0, 0)
    ensures !SpeciesFit(s.NumSpecies(), MakeAgent(s, d))
  {
  }

  /** Point spawn: every agent starts at the centre, computed with integer
      division, heading at its random angle. */
  lemma PointSpawn(s: SlimeSettings, d: AgentDraws)
    requires s.spawnMode == Point && s.width >= 0 && s.height >= 0
    ensures MakeAgent(s, d).position == Vec2((s.width / 2) as real, (s.height / 2) as real)
    ensures MakeAgent(s, d).angle == RandomAngle(d)
  {
  }

  /** Random spawn on a non-empty field: integer coordinates inside it. */
  lemma RandomSpawn(s: SlimeSettings, d: AgentDraws)
    requires s.spawnMode == Random && DrawsFit(s, d) && s.width >= 1 && s.height >= 1
    ensures var p := MakeAgent(s, d).position;
      p.x == p.x.Floor as real && p.y == p.y.Floor as real &&
      0.0 <= p.x < s.width as real && 0.0 <= p.y < s.height as real
    ensures MakeAgent(s, d).angle == RandomAngle(d)
  {
  }

  /** Every random heading lies in [0, 2 pi]: `Random.value` includes both ends. */
  lemma RandomAngleRange(s: SlimeSettings, d: AgentDraws)
    requires DrawsFit(s, d) && s.spawnMode != InwardCircle
    ensures 0.0 <= MakeAgent(s, d).angle <= 2.0 * Pi
  {
  }

  /** The squared distance from `centre` to `centre + unit * radius` is at
      most radius squared when `unit` lies in the unit disk. */
  lemma {:induction false} OffsetWithin(centre: Vec2, unit: Vec2, radius: real)
    requires InUnitDisk(unit)
    ensures var p := Offset(centre, unit, radius);
      (p.x - centre.x) * (p.x - centre.x) + (p.y - centre.y) * (p.y - centre.y) <= radius * radius
  {
    var p := Offset(centre, unit, radius);
    calc {
      (p.x - centre.x) * (p.x - centre.x) + (p.y - centre.y) * (p.y - centre.y);
      (unit.x * radius) * (unit.x * radius) + (unit.y * radius) * (unit.y * radius);
      (unit.x * unit.x + unit.y * unit.y) * (radius * radius);
    <=  { assert radius * radius >= 0.0; }
      1.0 * (radius * radius);
    }
  }

  /** The two circle spawn modes start agents within half, respectively
      0.15 times, the height of the centre. */
  lemma CircleSpawn(s: SlimeSettings, d: AgentDraws)
    requires DrawsFit(s, d)
    requires s.spawnMode == InwardCircle || s.spawnMode == RandomCircle
    ensures var p := MakeAgent(s, d).position;
      var c := Centre(s);
      var r := s.height as real * (if s.spawnMode == InwardCircle then 0.5 else 0.15);
      (p.x - c.x) * (p.x - c.x) + (p.y - c.y) * (p.y - c.y) <= r * r
    ensures s.spawnMode == InwardCircle ==> MakeAgent(s, d).angle == d.inwardAngle
  {
    var r := s.height as real * (if s.spawnMode == InwardCircle then 0.5 else 0.15);
    OffsetWithin(Centre(s), d.unitCircle, r);
  }
}

/** The simulation host: creation of the maps and agents, the brush stroke
    on the food map, and the frame loop that runs a fixed number of steps,
    each one dispatching the agent-update kernel, then the diffuse kernel,
    then copying the diffused trail map back into the trail map. The two
    kernels are compute-shader code outside this model; they are supplied as
    functions and nothing is assumed about what they compute. */
module Loop {
  import opened Settings
  import opened Agents
  import opened FoodGrid

  /** The contents of a render texture: one colour per cell, row after row. */
  type Texture = seq<Colour>

  /** The values a step hands to the compute shader before dispatching:
      the engine's fixed time step and time, the trail settings, the species
      table and its length, and the sizes set when the simulation started. */
  datatype StepParams = StepParams(
    deltaTime: real,
    time: real,
    trailWeight: real,
    decayRate: real,
    diffuseRate: real,
    numSpecies: nat,
    speciesSettings: seq<SpeciesSettings>,
    numAgents: int,
    width: int,
    height: int)

  function Params(s: SlimeSettings, time: real, deltaTime: real): StepParams {
    StepParams(deltaTime, time, s.trailWeight, s.decayRate, s.diffuseRate,
               s.NumSpecies(), s.speciesSettings, s.numAgents, s.width, s.height)
  }

  /** What the agent-update kernel writes: each slot of the agent buffer and
      each cell of the trail map (deposits) and of the food-eaten map. A
      kernel writes into buffers that already exist, so it decides the
      contents of each slot or cell and never the size. */
  datatype UpdateOutput = UpdateOutput(agent: int -> Agent, trailMap: int -> Colour, foodEatenMap: int -> Colour)

  /** The agent-update kernel reads the parameters, the agent buffer, the
      trail map, the food map and the food-eaten map; the diffuse kernel
      reads the parameters, the trail map and the diffused trail map, and
      gives each cell of the diffused trail map. */
  datatype Kernels = Kernels(
    update: (StepParams, seq<Agent>, Texture, Texture, Texture) -> UpdateOutput,
    diffuse: (StepParams, Texture, Texture) -> (int -> Colour))

  /** The GPU-side state a step changes. */
  datatype Buffers = Buffers(agents: seq<Agent>, trailMap: Texture, diffusedTrailMap: Texture, foodEatenMap: Texture)

  /** The three things a step does, in the order it does them. */
  datatype Stage = UpdateAgents | DiffuseTrail | CopyBack

  const StepStages: seq<Stage> := [UpdateAgents, DiffuseTrail, CopyBack]

  /** One simulation step: the agent-update kernel first, then the diffuse
      kernel on the trail map the update left (so every deposit of a step is
      diffused in that step), then the copy back. The agent buffer, the
      diffused trail map and the food-eaten map keep their sizes; after the
      copy the trail map and the diffused trail map hold the same contents. */
  function Step(k: Kernels, p: StepParams, food: Texture, b: Buffers): (r: Buffers)
    ensures |r.agents| == |b.agents|
    ensures |r.diffusedTrailMap| == |b.diffusedTrailMap| && |r.foodEatenMap| == |b.foodEatenMap|
    ensures r.trailMap == r.diffusedTrailMap
  {
    var out := k.update(p, b.agents, b.trailMap, food, b.foodEatenMap);
    var trail := seq(|b.trailMap|, i => out.trailMap(i));
    var cell := k.diffuse(p, trail, b.diffusedTrailMap);
    var diffused := seq(|b.diffusedTrailMap|, i => cell(i));
    Buffers(seq(|b.agents|, i => out.agent(i)), diffused, diffused, seq(|b.foodEatenMap|, i => out.foodEatenMap(i)))
  }

  /** `n` steps in a row (none when n <= 0), all with the same parameters. */
  function Steps(k: Kernels, p: StepParams, food: Texture, b: Buffers, n: int): Buffers
    decreases n
  {
    if n <= 0 then b else Step(k, p, food, Steps(k, p, food, b, n - 1))
  }

  /** The stages `n` steps run, in order. */
  function Trace(n: int): seq<Stage>
    decreases n
  {
    if n <= 0 then [] else Trace(n - 1) + StepStages
  }

  /** `n` steps run 3n stages, none when n <= 0. */
  lemma {:induction false} TraceLength(n: int)
    ensures |Trace(n)| == if n <= 0 then 0 else 3 * n
    decreases n
  {
    if n > 0 {
      TraceLength(n - 1);
    }
  }

  /** Step j of n runs agent-update, diffuse and copy, in that order, at
      positions 3j, 3j+1 and 3j+2 of the trace. */
  lemma {:induction false} TraceAt(n: int, j: int, stage: int)
    requires 0 <= j < n && 0 <= stage < 3
    ensures |Trace(n)| == 3 * n
    ensures Trace(n)[3 * j + stage] == StepStages[stage]
    decreases n
  {
    TraceLength(n);
    TraceLength(n - 1);
    if j < n - 1 {
      TraceAt(n - 1, j, stage);
    }
  }

  /** A frame whose step count is zero or negative changes nothing. */
  lemma NoSteps(k: Kernels, p: StepParams, food: Texture, b: Buffers, n: int)
    requires n <= 0
    ensures Steps(k, p, food, b, n) == b
    ensures Trace(n) == []
  {
  }

  /** Steps never create or destroy agents. */
  lemma {:induction false} StepsKeepPopulation(k: Kernels, p: StepParams, food: Texture, b: Buffers, n: int)
    ensures |Steps(k, p, food, b, n).agents| == |b.agents|
    decreases n
  {
    if n > 0 {
      StepsKeepPopulation(k, p, food, b, n - 1);
    }
  }

  /** Textures of one size keep that size over any number of steps. */
  lemma {:induction false} StepsKeepSizes(k: Kernels, p: StepParams, food: Texture, b: Buffers, n: int)
    requires |b.trailMap| == |b.diffusedTrailMap|
    ensures var r := Steps(k, p, food, b, n);
      |r.trailMap| == |b.trailMap| && |r.diffusedTrailMap| == |b.diffusedTrailMap| &&
      |r.foodEatenMap| == |b.foodEatenMap|
    decreases n
  {
    if n > 0 {
      StepsKeepSizes(k, p, food, b, n - 1);
    }
  }

  /** After at least one step the trail map holds the diffused trail map. */
  lemma StepsHandBack(k: Kernels, p: StepParams, food: Texture, b: Buffers, n: int)
    requires n >= 1
    ensures Steps(k, p, food, b, n).trailMap == Steps(k, p, food, b, n).diffusedTrailMap
  {
  }

  /** Running m steps and then n steps is running m + n steps. */
  lemma {:induction false} StepsCompose(k: Kernels, p: StepParams, food: Texture, b: Buffers, m: nat, n: nat)
    ensures Steps(k, p, food, Steps(k, p, food, b, m), n) == Steps(k, p, food, b, m + n)
    decreases n
  {
    if n > 0 {
      StepsCompose(k, p, food, b, m, n - 1);
    }
  }

  /** Under settings within their declared bounds a frame runs at least one
      step, so it ends with the trail map equal to the diffused trail map. */
  lemma ValidFrameHandsBack(s: SlimeSettings, k: Kernels, time: real, deltaTime: real, food: Texture, b: Buffers)
    requires Valid(s)
    ensures var r := Steps(k, Params(s, time, deltaTime), food, b, s.stepsPerFrame);
      r.trailMap == r.diffusedTrailMap
    ensures |Trace(s.stepsPerFrame)| >= 3
  {
    StepsHandBack(k, Params(s, time, deltaTime), food, b, s.stepsPerFrame);
    TraceLength(s.stepsPerFrame);
  }

  /** With the default step count a frame is exactly one step. */
  lemma DefaultFrameIsOneStep(k: Kernels, p: StepParams, food: Texture, b: Buffers)
    ensures Steps(k, p, food, b, Defaults.stepsPerFrame) == Step(k, p, food, b)
    ensures Trace(Defaults.stepsPerFrame) == StepStages
  {
  }

  /** The simulation component: its settings and kernels, the food map, and
      the GPU buffers the frame loop updates. */
  class Simulation {
    const settings: SlimeSettings
    const kernels: Kernels
    const foodMap: FoodMap
    var agents: seq<Agent>
    var trailMap: Texture
    var diffusedTrailMap: Texture
    var foodEatenMap: Texture
    /** The stages dispatched so far. It counts steps; the order of the
        kernels within a step is carried by `Step`. */
    ghost var stages: seq<Stage>

    ghost predicate Valid()
      reads this, foodMap
    {
      foodMap.Valid() &&
      foodMap.width == settings.width && foodMap.height == settings.height &&
      |agents| == settings.numAgents &&
      |trailMap| == |diffusedTrailMap| == |foodEatenMap| == settings.width * settings.height
    }

    function State(): Buffers
      reads this
    {
      Buffers(agents, trailMap, diffusedTrailMap, foodEatenMap)
    }

    function Food(): Texture
      reads this, foodMap, foodMap.pixels
    {
      foodMap.pixels[..]
    }

    /** Start-up: the food map cleared to black, then `numAgents` agents,
      agent i built from the i-th draws. `blank` is the contents of a
      freshly created render texture of width x height cells. */
    constructor (settings: SlimeSettings, kernels: Kernels, draws: seq<AgentDraws>, blank: Texture)
      requires settings.width >= 1 && settings.height >= 1
      requires |draws| == settings.numAgents
      requires |blank| == settings.width * settings.height
      ensures this.settings == settings && this.kernels == kernels
      ensures Valid() && fresh(foodMap) && fresh(foodMap.pixels)
      ensures forall x, y :: InGrid(x, y, settings.width, settings.height) ==> foodMap.Pixel(x, y) == Black
      ensures |agents| == settings.numAgents
      ensures forall i :: 0 <= i < |agents| ==> agents[i] == MakeAgent(settings, draws[i])
      ensures trailMap == blank && diffusedTrailMap == blank && foodEatenMap == blank
      ensures stages == []
    {
      this.settings := settings;
      this.kernels := kernels;
      foodMap := new FoodMap(settings.width, settings.height);
      var created := InitAgents(settings, draws);
      agents := created[..];
      trailMap, diffusedTrailMap, foodEatenMap := blank, blank, blank;
      stages := [];
    }

    /** One rendered frame of input: while the mouse button is held, the
        brush paints the food colour around the cell under the mouse. */
    method Update(mouseHeld: bool, cx: int, cy: int)
      requires Valid()
      modifies foodMap.pixels
      ensures Valid()
      ensures forall x, y :: InGrid(x, y, foodMap.width, foodMap.height) ==>
        foodMap.Pixel(x, y) ==
          if mouseHeld && InBrush(x, y, cx, cy, settings.brushSize) then settings.foodColor else old(foodMap.Pixel(x, y))
      ensures Food() == if mouseHeld
        then Painted(old(Food()), foodMap.width, cx, cy, settings.brushSize, settings.foodColor)
        else old(Food())
    {
      if mouseHeld {
        foodMap.Paint(cx, cy, settings.brushSize, settings.foodColor);
      }
    }

    /** One step: agent update, diffusion, and the copy of the diffused
        trail map back into the trail map. */
    method RunSimulation(time: real, deltaTime: real)
      requires Valid()
      modifies this
      ensures Valid()
      ensures State() == Step(kernels, Params(settings, time, deltaTime), Food(), old(State()))
      ensures stages == old(stages) + StepStages
      ensures trailMap == diffusedTrailMap
    {
      var p := Params(settings, time, deltaTime);
      var out := kernels.update(p, agents, trailMap, Food(), foodEatenMap);
      agents := seq(|agents|, i => out.agent(i));
      trailMap := seq(|trailMap|, i => out.trailMap(i));
      foodEatenMap := seq(|foodEatenMap|, i => out.foodEatenMap(i));
      stages := stages + [UpdateAgents];
      var cell := kernels.diffuse(p, trailMap, diffusedTrailMap);
      diffusedTrailMap := seq(|diffusedTrailMap|, i => cell(i));
      stages := stages + [DiffuseTrail];
      trailMap := diffusedTrailMap;
      stages := stages + [CopyBack];
    }

    /** One fixed-rate tick: `stepsPerFrame` steps, all seeing the same
        engine time and time step. */
    method FixedUpdate(time: real, deltaTime: real)
      requires Valid()
      modifies this
      ensures Valid()
      ensures State() == Steps(kernels, Params(settings, time, deltaTime), Food(), old(State()), settings.stepsPerFrame)
      ensures stages == old(stages) + Trace(settings.stepsPerFrame)
    {
      var i := 0;
      while i < settings.stepsPerFrame
        invariant 0 <= i && (i <= settings.stepsPerFrame || i == 0)
        invariant Valid()
        invariant State() == Steps(kernels, Params(settings, time, deltaTime), Food(), old(State()), i)
        invariant stages == old(stages) + Trace(i)
      {
        RunSimulation(time, deltaTime);
        i := i + 1;
      }
    }
  }
}

# Slime simulation host, modelled in Dafny

This project models the sequential host logic of a GPU slime-mould simulation. The agents, trail diffusion and food eating run in compute shaders. The C# host around them does four things, and this model covers all four:

- **Settings** (`settings.dfy`, module `Settings`). The `SlimeSettings` asset and its `SpeciesSettings` entries become datatypes. `Valid` is a predicate over the `[Min]` bounds. `Defaults` holds the declared initial values. The number of species is the length of the species array and is stored nowhere else.
- **Food map** (`food_map.dfy`, module `FoodGrid`). The food texture is a class over a flat `array<Colour>` of `width * height` pixels, laid out row after row as `GetPixels` returns them, so cell (x, y) is at index `y * width + x`.
  - The constructor clears every pixel to black in one loop.
  - `Paint` is the nested brush loop. It calls `SetPixel` for every cell of the square `[cx - b + 1, cx + b) x [cy - b + 1, cy + b)`.
  - `Painted` is the specification of one stroke. The lemmas prove that a stroke changes exactly the in-grid cells of that square, that a second identical stroke changes nothing, and that the square has (2b-1)² cells (one when b = 1, none when b <= 0).
- **Agent creation** (`agents.dfy`, module `Agents`). `MakeAgent` builds one agent from the settings and that agent's random draws (`AgentDraws`). `InitAgents` is the creation loop; slot i is built from the i-th draws.
  - The lemmas cover species assignment: all three channels and index 0 with one species; otherwise channel k is set exactly when the drawn species is k+1.
  - They also cover the spawn modes: Point spawns at the integer-division centre, Random spawns at integer coordinates inside the field, and the circle modes spawn within their radius.
- **Frame loop** (`simulation.dfy`, module `Loop`). The `Simulation` class holds the agent buffer and the trail, diffused-trail and food-eaten textures.
  - `RunSimulation` is one step: the agent-update kernel, then the diffuse kernel, then the copy of the diffused trail map into the trail map. `FixedUpdate` runs `stepsPerFrame` steps.
  - The kernels are supplied as function values (`Kernels`); nothing is assumed about what they compute.
  - The pure `Step` and `Steps` functions specify the methods.
  - The order of the kernels within a step is carried by `Step`: the diffuse kernel is applied to the trail map the update kernel returned. A ghost trace of stage labels counts the steps; its labels do not themselves fix the order. The lemmas prove that a frame runs exactly `stepsPerFrame` steps, that the trail map equals the diffused trail map after every step and that the agent population never changes.

The code does the following, which may be unexpected:

- Agents eat food by writing a separate food-eaten texture. The food map itself is a `Texture2D` that the kernels only read.
- The double buffer is not swapped. The diffused map is copied back into the trail map.
- Configuration is not validated. `[Min]` only restricts what the inspector accepts, so `Valid` is a predicate the lemmas assume, not a check the code performs.
- Species assignment is not always one-hot. With no species, or with more than three, the code does what `NoSpecies` and `SeveralSpecies` state.

## Model

| member | source | states |
|---|---|---|
| Settings.ValidSpecies | Assets/Scripts/Slime/SlimeSettings.cs:33-39 | no contract; a species entry is within its bounds when its food-eat rate is at least 0 (`[Min(0)]`) and its sensor size at least 1 (`[Min(1)]`) |
| Settings.Valid | Assets/Scripts/Slime/SlimeSettings.cs:9-39 | no contract; a configuration is within its bounds when it runs at least one step per frame (`[Min(1)]`) and every species entry is within its own bounds |
| Settings.DefaultValues | Assets/Scripts/Slime/SlimeSettings.cs:9-25 | a new settings asset has 1 step per frame, a 1280x720 field, 100 agents, trail weight, decay and diffuse rates of 1, a brush of size 1, green food and no species |
| Settings.DefaultsValid | Assets/Scripts/Slime/SlimeSettings.cs:9-39 | the defaults plus species entries that keep their own `[Min]` bounds satisfy every declared bound, and the species count is the array's length |
| Settings.ZeroSpeciesInvalid | Assets/Scripts/Slime/SlimeSettings.cs:28-39 | a species entry left at C#'s zero value satisfies the food-eat-rate bound but breaks the sensor-size bound of 1 |
| FoodGrid.CellOfIndex | Assets/Scripts/Slime/Simulation.cs:53-57 | every position of the flattened pixel array is the position of one in-grid cell, recovered by `%` and `/` |
| FoodGrid.FoodMap.constructor | Assets/Scripts/Slime/Simulation.cs:50-58 | the new food map has width x height pixels and every pixel, so every cell, is black |
| FoodGrid.FoodMap.SetPixel | Assets/Scripts/Slime/Simulation.cs:161 | writing a pixel changes that cell only, and nothing when the cell is outside the grid |
| FoodGrid.FoodMap.Paint | Assets/Scripts/Slime/Simulation.cs:159-163 | after a stroke, every in-grid cell of the brush square has the food colour, every other cell is unchanged, and the pixels equal `Painted` of the old pixels |
| FoodGrid.Painted | Assets/Scripts/Slime/Simulation.cs:159-163 | a stroke keeps the number of pixels |
| FoodGrid.PaintedAt | Assets/Scripts/Slime/Simulation.cs:159-163 | in a painted map, cell (x, y) has the food colour if it lies in the brush square and its old colour otherwise |
| FoodGrid.PaintIdempotent | Assets/Scripts/Slime/Simulation.cs:159-163 | painting the same stroke twice gives the same map as painting it once |
| FoodGrid.UnitBrush | Assets/Scripts/Slime/Simulation.cs:159-160 | a brush of size 1 covers exactly the centre cell |
| FoodGrid.EmptyBrush | Assets/Scripts/Slime/Simulation.cs:159-160 | a brush of size 0 or less covers no cell |
| FoodGrid.SquareIsBrush | Assets/Scripts/Slime/Simulation.cs:159-160 | a cell is in the counted square exactly when the brush covers it |
| FoodGrid.BrushCellCount | Assets/Scripts/Slime/Simulation.cs:159-160 | the brush square of size b has (2b-1)x(2b-1) cells when b >= 1 and none otherwise |
| Agents.Centre | Assets/Scripts/Slime/Simulation.cs:85 | the centre has whole coordinates, and for a non-negative width (height) twice its x (y) is at most the width (height) and more than the width (height) minus 2 |
| Agents.StartPosition | Assets/Scripts/Slime/Simulation.cs:85-109 | no contract; the start position per spawn mode: the centre for Point, the two integer draws for Random, the centre plus the unit-disk draw times 0.5 or 0.15 of the height for InwardCircle and RandomCircle; PointSpawn, RandomSpawn and CircleSpawn state its properties |
| Agents.StartAngle | Assets/Scripts/Slime/Simulation.cs:87-108 | no contract; the supplied heading towards the centre for InwardCircle, `Random.value * Mathf.PI * 2` otherwise; RandomAngleRange and CircleSpawn state its properties |
| Agents.MakeAgent | Assets/Scripts/Slime/Simulation.cs:84-126 | no contract; builds the agent of one loop iteration from that iteration's draws: start position, heading, and the species mask and index of AssignSpecies; SingleSpecies, SeveralSpecies, NoSpecies and CreatedSpeciesFit state its properties |
| Agents.Half | Assets/Scripts/Slime/Simulation.cs:85 | C#'s integer halving truncates toward zero: 2h <= n < 2h+2 for n >= 0, and 2h-2 < n <= 2h for n < 0 |
| Agents.AssignSpecies | Assets/Scripts/Slime/Simulation.cs:111-124 | every mask channel is 0 or 1, and with any species count but one, channel k is set exactly when the species index is k |
| Agents.InitAgents | Assets/Scripts/Slime/Simulation.cs:82-127 | creation gives a new array of exactly `numAgents` agents whose slot i is the agent built from the i-th draws |
| Agents.SingleSpecies | Assets/Scripts/Slime/Simulation.cs:115-118 | with exactly one species every agent has mask (1,1,1) and species index 0 |
| Agents.SeveralSpecies | Assets/Scripts/Slime/Simulation.cs:119-124 | with two or more species and a drawn species in [1, numSpecies]: the index is species-1 and lies in [0, numSpecies); channel k is 1 iff species == k+1; the mask is one-hot iff species <= 3 and all zero iff species > 3 |
| Agents.CreatedSpeciesFit | Assets/Scripts/Slime/Simulation.cs:112-123 | with at least one species every created agent's index names a configured species and its mask is 0/1 per channel |
| Agents.NoSpecies | Assets/Scripts/Slime/Simulation.cs:113-123 | with an empty species array the draw `Random.Range(1, 1)` is 1, so the agent gets index 0, which names no species, and mask (1,0,0) |
| Agents.PointSpawn | Assets/Scripts/Slime/Simulation.cs:85-94 | Point spawn puts the agent at (width/2, height/2) with integer division and heads it at its random angle |
| Agents.RandomSpawn | Assets/Scripts/Slime/Simulation.cs:95-98 | on a non-empty field, Random spawn gives integer coordinates in [0,width)x[0,height) and the random angle |
| Agents.RandomAngleRange | Assets/Scripts/Slime/Simulation.cs:87-108 | outside InwardCircle the heading lies in [0, 2 pi], both ends included because `Random.value` includes 0 and 1 |
| Agents.CircleSpawn | Assets/Scripts/Slime/Simulation.cs:100-109 | InwardCircle starts agents within 0.5 x height of the centre, heading at the supplied angle; RandomCircle starts them within 0.15 x height |
| Loop.Params | Assets/Scripts/Slime/Simulation.cs:202-208 | no contract; the values a step hands to the shader: the tick's time step and time, the trail weight, decay and diffuse rates, the species table and its length, and the agent count and field size set at start-up (lines 130, 135-136) |
| Loop.Step | Assets/Scripts/Slime/Simulation.cs:194-215 | a step runs the update kernel, then the diffuse kernel on the update's trail output, then the copy back; it keeps the size of the agent buffer, the diffused trail map and the food-eaten map, and ends with the trail map equal to the diffused trail map |
| Loop.Steps | Assets/Scripts/Slime/Simulation.cs:171-174 | no contract; `n` steps in a row with the same parameters, none when n <= 0; NoSteps, StepsKeepPopulation, StepsKeepSizes, StepsHandBack and StepsCompose state its properties |
| Loop.TraceLength | Assets/Scripts/Slime/Simulation.cs:171-174 | n steps run 3n stages, and none when n <= 0 |
| Loop.TraceAt | Assets/Scripts/Slime/Simulation.cs:171-174 | step j of n runs agent-update, diffuse and copy at trace positions 3j, 3j+1 and 3j+2 |
| Loop.NoSteps | Assets/Scripts/Slime/Simulation.cs:171-174 | a frame with a step count of zero or less changes no buffer and dispatches nothing |
| Loop.StepsKeepPopulation | Assets/Scripts/Slime/Simulation.cs:211 | any number of steps keeps the number of agents |
| Loop.StepsKeepSizes | Assets/Scripts/Slime/Simulation.cs:211-214 | when the trail map and the diffused trail map have one size, any number of steps keeps the size of the trail map, the diffused trail map and the food-eaten map: the kernels write into the existing textures and the copy is between textures of one size |
| Loop.StepsHandBack | Assets/Scripts/Slime/Simulation.cs:214 | after one or more steps the trail map equals the diffused trail map |
| Loop.StepsCompose | Assets/Scripts/Slime/Simulation.cs:171-174 | m steps followed by n steps equal m + n steps |
| Loop.ValidFrameHandsBack | Assets/Scripts/Slime/SlimeSettings.cs:9 | with the `[Min(1)]` bound on stepsPerFrame a frame runs at least one step (three stages) and ends with the trail map equal to the diffused trail map |
| Loop.DefaultFrameIsOneStep | Assets/Scripts/Slime/SlimeSettings.cs:9 | with the default of 1 step per frame a frame is exactly one step |
| Loop.Simulation.constructor | Assets/Scripts/Slime/Simulation.cs:46-139 | start-up gives an all-black food map of the configured size, `numAgents` agents with agent i built from the i-th draws, fresh textures of width x height cells and no dispatched stage |
| Loop.Simulation.Update | Assets/Scripts/Slime/Simulation.cs:150-167 | while the mouse is held, the brush paints the configured food colour in a square of the configured size; otherwise the food map is unchanged |
| Loop.Simulation.RunSimulation | Assets/Scripts/Slime/Simulation.cs:194-215 | one step moves the buffers to `Step` of the old buffers, so the diffuse kernel reads the trail map the update kernel wrote and the copy comes last; it appends one step's stages and leaves the trail map equal to the diffused map |
| Loop.Simulation.FixedUpdate | Assets/Scripts/Slime/Simulation.cs:169-175 | a tick moves the buffers to `Steps` of the old buffers for `stepsPerFrame` steps, all with the same time and time step, and appends exactly that many step traces |

## Left out

- Compute-shader kernels (agent update, diffuse, colour, draw agents): their code is not part of this model. `Kernels` takes them as arbitrary functions, so no sensing, steering, diffusion, decay or food-eating rule is modelled.
- `Dispatch`, `SetTexture`, `SetFloat`, `SetInt`, `SetBuffer`, buffer creation and release, and `foodMap.Apply()`: these are foreign engine calls. Their effect is the parameters a step hands over (`StepParams`) and the values of the `Simulation` fields.
- Rendering and lifecycle (`Start`, `LateUpdate`, `OnDestroy`, format selection, render-texture creation, material assignment): these are display and resource management. The contents of a new render texture are the constructor parameter `blank`, which holds width x height cells.
- Input mapping (`worldPositionToShaderIndex`, mouse, camera, `Debug.Log`): this is floating-point scaling of engine input. `Update` receives the brush centre as integer cell coordinates.
- FoodGrid.FoodMap.SetPixel: a write outside the grid is dropped. In the engine it depends on the texture's wrap mode, which this model does not capture.
- FoodGrid.FoodMap.Paint: "every other cell is unchanged" holds only because writes outside the grid are dropped. In the engine a stroke at an edge follows the texture's wrap mode: with Repeat it also paints cells on the far edge, with Clamp it paints the edge cells. The same holds for Loop.Simulation.Update, which paints through Paint.
- FoodGrid.FoodMap.constructor: requires width and height of at least 1, since the engine refuses to create an empty texture; the initial contents before clearing are whatever allocation gives.
- Agents.CircleSpawn: positions are computed in exact real arithmetic, not single-precision floats. The InwardCircle heading (`Atan2` of the normalised direction to the centre) is a supplied draw, not computed.
- Agents.RandomAngleRange: `Mathf.PI` is its printed single-precision value 3.14159274 taken as an exact real (the float itself is 3.1415927410125732421875), and the product is not rounded.
- Agents.InitAgents: requires as many draws as `numAgents`, so a negative `numAgents` is excluded; in the engine `new Agent[numAgents]` then throws an overflow exception, which is not modelled.
- Loop.Simulation.constructor: requires as many draws as `numAgents` (a negative `numAgents` throws when the agent array is allocated, not modelled) and a width and height of at least 1 (the food texture cannot be created otherwise, not modelled); the `blank` render-texture contents must hold width x height cells, as the engine creates them.
- Settings are constant for a run: `Simulation.settings` is a value, while the engine's settings asset can be edited while the simulation runs and is read again on every brush stroke and every step. So the model cannot show what happens when `numAgents`, `width` or `height` change after start-up, when the shader's sizes (set once at start-up) no longer match the dispatch sizes and the buffers; `Params` always agrees with them here.
- Agents.RangeDraw: an integer `Random.Range(lo, hi)` with hi < lo is modelled as returning lo. Only hi == lo arises for valid field sizes and species arrays.
- Random number generation: the order and state of the engine's generator are not modelled. Each agent's draws are supplied in `AgentDraws`.
- `Agent.unusedSpeciesChannel`: this is padding for the GPU layout and carries no behaviour.
- Time: `Time.fixedTime` and `Time.fixedDeltaTime` come from the engine clock and are parameters of `FixedUpdate` and `RunSimulation`.
- 32-bit overflow of `int` settings (brush bounds, `width * height`): integers are unbounded here.

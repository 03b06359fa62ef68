# Drone search coverage: fitness and particle swarm, in Dafny

This project models the optimisation core of a small Python program. The program places
`NUM_DRONES` drones with a circular detection radius over a square area of side
`AREA_SIZE`. The goal is to maximise the probability mass of a grid map (`mapa`) that the
drones cover.

- **`Coverage`** (`coverage.dfy`) models `fitness`. Each position `(x, y)` is mapped to the
  cell `(int(x/escala), int(y/escala))`. The disc of cells with `dx² + dy² <= radio²` around
  that cell, clipped to the grid, is set to 1 in the array `cubierto`. The score is
  `np.sum(mapa * cubierto)`. `Fitness` fills a real `array2` in place, with the two offset
  loops in `MarkDisc` and the sum in `MaskedSum`. It is proved equal to `CoveredMass`, the
  mass of the map under the union of the per-drone discs. The lemmas prove the score's
  properties: bounds, union semantics, monotonicity, order independence, the radius-0 case
  and the grid edge.
- **`Swarm`** (`swarm.dfy`) models `Particle` and `PSO`. `Particle` is a class whose four
  fields are reassigned by the evaluation phase and the update phase, as in the program.
  `Pso` runs `MAX_ITER` iterations. Each iteration is an evaluation phase (`EvaluationPhase`)
  followed by an update phase (`UpdatePhase`). The methods are proved against a reference
  run on values: `Run` is built from `Step`, `Evaluate` and `Move`. The lemmas about `Run`
  prove the following:
  - best scores never decrease;
  - ties keep the earlier best;
  - the global best dominates every personal best and every evaluated placement;
  - every personal and global best is a placement that was actually evaluated, together with its score;
  - the `-1` sentinel is replaced on the first evaluation;
  - positions stay in `[0, AREA_SIZE]`.

The module constants `AREA_SIZE`, `RADIO_DETECCION`, `NUM_DRONES`, `PARTICULAS` and
`MAX_ITER` are parameters here (`Config`, `particulas`, `maxIter`). Every random draw is an
input:
- `units`: the `np.random.rand` position draws, each in `[0,1)`, scaled by the area side;
- `velocities`: the `np.random.randn` velocity draws;
- `draws`: one `Draw(r1, r2)` per particle per iteration, shared by all of that particle's
  coordinates.

NumPy floats are Dafny `real`s. Python's `int()` truncates toward zero and is modelled
exactly by `Trunc`.

The program validates no configuration, and the model states its assumptions as
preconditions (`IsSquare`, `areaSize > 0`, `NonNegative`), not as modelled error results:
- An empty map makes `AREA_SIZE / tamaño` divide by zero (line 28).
- `AREA_SIZE == 0` makes `x / escala` a NaN, and `int()` of it raises a `ValueError` at line 32, as soon as there is a drone.
- A negative `AREA_SIZE` raises nothing, and `escala` is negative. `radio = int(RADIO_DETECCION/escala)` (line 34) truncates toward zero, so two cases arise:
  - When `|AREA_SIZE| <= RADIO_DETECCION * tamaño`, `radio` is negative. Both `range` loops (lines 36-37) are then empty and every score is 0.
  - When `|AREA_SIZE|` is larger, `radio` is 0. The initial positions `rand * AREA_SIZE` (line 49) map to cells in `[0, tamaño)`, so the first evaluation scores each drone's own cell.

  In both cases `np.clip` with a negative upper bound sets every coordinate to `AREA_SIZE` at the first update (line 80). From then on every drone's cell is `tamaño`, outside the grid, and every later score is 0. `areaSize > 0` excludes this configuration, which the program runs through silently.
- A map with negative mass can make every score -1 or lower. `global_best_position` then stays `None` when the update phase reads it (line 74).

On a 10-cell grid with a detection radius of 5 cells (half the area side), one drone never
reaches the whole grid: some corner is always outside the disc test (`OneDroneMissesACorner`).
So one drone cannot cover the full mass of a uniform map in that configuration.

## Model

| member | source | states |
|---|---|---|
| `Coverage.Trunc` | Quiz_Problema_Drones.py:32-34 | `int()` truncates toward zero: for non-negative values it is the floor, for negative values the ceiling |
| `Coverage.GeometryOf` | Quiz_Problema_Drones.py:27-34 | the cell side `escala` times the grid side is the area side; `radio` is `int(RADIO_DETECCION/escala)` |
| `Coverage.Fitness` | Quiz_Problema_Drones.py:26-42 | the score equals the mass of the map under the union of all drones' clipped discs (`CoveredMass`); the loop invariant keeps every `cubierto` entry 0 or 1, and 1 exactly on covered cells |
| `Coverage.MarkDisc` | Quiz_Problema_Drones.py:36-40 | after the `dx`/`dy` loops for one drone, the in-grid cells it marks are 1 and every other cell is unchanged |
| `Coverage.MaskedSum` | Quiz_Problema_Drones.py:42 | the loop computes `np.sum(mapa * cubierto)` |
| `Coverage.CoveredUnion` | Quiz_Problema_Drones.py:31-40 | a cell is covered by a concatenation of placements exactly when one of them covers it |
| `Coverage.CoverageBounds` | Quiz_Problema_Drones.py:18-42 | on a non-negative map, `0 <= fitness <= sum(mapa)`, so the score is in [0, 1] on the normalised map |
| `Coverage.CoverageMonotone` | Quiz_Problema_Drones.py:31-42 | on a non-negative map, if every drone of one placement is in another, the second scores at least as much |
| `Coverage.AddingDroneNeverLowers` | Quiz_Problema_Drones.py:31-42 | adding a position never lowers the score |
| `Coverage.CoverageSameDrones` | Quiz_Problema_Drones.py:31-42 | placements with the same set of positions score the same, whatever the order and repetition |
| `Coverage.CoveragePermutation` | Quiz_Problema_Drones.py:31-42 | reordering the positions leaves the score unchanged |
| `Coverage.OverlapCountedOnce` | Quiz_Problema_Drones.py:29-42 | a cell marked by several drones counts once: doubling the placement leaves the score unchanged |
| `Coverage.DiscIsDistanceTest` | Quiz_Problema_Drones.py:36-39 | for a non-negative radius, an offset is marked exactly when `dx² + dy² <= radio²`; the bounding-square loops lose nothing |
| `Coverage.SmallRadiusIsZero` | Quiz_Problema_Drones.py:34 | a detection radius shorter than one cell gives `radio == 0` |
| `Coverage.RadiusZeroCovers` | Quiz_Problema_Drones.py:34-40 | with `radio == 0`, a cell is covered exactly when it is in the grid and is some drone's own cell |
| `Coverage.RadiusZeroSingleDrone` | Quiz_Problema_Drones.py:31-42 | with `radio == 0`, one drone scores the value of its own cell, or 0 when that cell is outside the grid |
| `Coverage.RadiusZeroMass` | Quiz_Problema_Drones.py:31-42 | with `radio == 0`, the score of any placement is the mass of the distinct in-grid cells that hold a drone, each counted once |
| `Coverage.EdgeDroneOutsideGrid` | Quiz_Problema_Drones.py:32-38 | a drone at `x == AREA_SIZE` gets `i == tamaño`, just outside the grid, and marks only in-grid cells in rows `tamaño - radio` to `tamaño - 1` |
| `Coverage.OneDroneMissesACorner` | Quiz_Problema_Drones.py:36-39 | on a 10-cell grid with `radio == 5`, one drone always leaves some cell uncovered |
| `Swarm.Score` | Quiz_Problema_Drones.py:61 | the fitness of a placement on a non-negative map lies in [0, total mass] |
| `Swarm.Particle.constructor` | Quiz_Problema_Drones.py:47-52 | a new particle has position `rand * AREA_SIZE`, the supplied velocity, a best position that copies its position, and best score -1 |
| `Swarm.Evaluate` | Quiz_Problema_Drones.py:60-65 | in the evaluation phase, each particle's personal best becomes its score and position only if the score is strictly greater; otherwise the particle is unchanged |
| `Swarm.EvaluateGlobal` | Quiz_Problema_Drones.py:60-69 | after the evaluation phase, the global best is at least the old one and at least every particle's score; when it changed, it is the score and position of the first particle that reached the new maximum (ties keep the earlier best) |
| `Swarm.NewVelocity` | Quiz_Problema_Drones.py:72-76 | the new velocity has one entry per drone; a drone already at its personal best and at the global best keeps only `0.5*v`, and with both draws `r1 = r2 = 0` every drone keeps only `0.5*v` (one `(r1, r2)` pair for the whole particle) |
| `Swarm.Clip` | Quiz_Problema_Drones.py:80 | `np.clip(c, 0, AREA_SIZE)` is in the area, leaves values inside it unchanged, and maps values below to 0 and above to `AREA_SIZE` |
| `Swarm.Advance` | Quiz_Problema_Drones.py:77-80 | the position after `position + velocity` and clipping lies inside the area |
| `Swarm.Move` | Quiz_Problema_Drones.py:71-80 | the update phase moves a particle into the area and leaves its best position and best score untouched |
| `Swarm.Step` | Quiz_Problema_Drones.py:59-80 | one iteration (evaluation, then update using the final global best) keeps the particle count and every shape; while the global position is still `None` the global score is still negative (the sentinel) |
| `Swarm.Run` | Quiz_Problema_Drones.py:59-80 | `MAX_ITER` iterations keep the particle count, every shape, and the rule that a `None` global position goes with a negative score |
| `Swarm.EvaluateParticle` | Quiz_Problema_Drones.py:61-69 | one pass of the first inner loop: the particle's fields become `Remember` of its score (a strictly greater score replaces the personal best), and the global pair becomes `Promote` of it |
| `Swarm.EvaluationPhase` | Quiz_Problema_Drones.py:60-69 | the first inner loop leaves the particles and the global best pair exactly as `Evaluate` describes |
| `Swarm.UpdatePhase` | Quiz_Problema_Drones.py:71-80 | the second inner loop sets each particle to `Move` of its state, with its own `(r1, r2)` |
| `Swarm.Iteration` | Quiz_Problema_Drones.py:59-80 | one pass of the iteration loop takes the particles and the global best to `Step` of their state |
| `Swarm.NewSwarm` | Quiz_Problema_Drones.py:55 | the swarm is a list of distinct new particles, each in its initial state |
| `Swarm.Pso` | Quiz_Problema_Drones.py:54-82 | returns exactly the global best pair of `Run`. With no particles or no iterations this is `(None, -1)`. Otherwise the position is set and inside the area, the score is the position's true fitness, lies in [0, total mass], and is at least every initial placement's score |
| `Swarm.InitialSound` | Quiz_Problema_Drones.py:47-57 | the initial swarm is well formed and sound: every position and best position lies in the area, and no personal best exceeds the global sentinel score -1 |
| `Swarm.ScaledInArea` | Quiz_Problema_Drones.py:49 | `rand * AREA_SIZE` with draws in [0,1) lies in the area |
| `Swarm.StepSound` | Quiz_Problema_Drones.py:59-80 | one iteration keeps positions in the area and keeps each best score the true score of its best position; the global best dominates every personal best |
| `Swarm.RunSound` | Quiz_Problema_Drones.py:59-80 | the properties in `StepSound` hold after every number of iterations |
| `Swarm.StepMonotone` | Quiz_Problema_Drones.py:63-69 | one iteration never lowers the global or any personal best score; afterwards both are at least the score of the position just evaluated |
| `Swarm.RunMonotone` | Quiz_Problema_Drones.py:59-69 | the global and personal best scores never decrease over iterations |
| `Swarm.RunDominatesEvaluations` | Quiz_Problema_Drones.py:59-69 | at the end, a particle's best score and the global best score are at least every score that particle was evaluated at in any iteration |
| `Swarm.RunGlobalDominatesPersonal` | Quiz_Problema_Drones.py:56-69 | after any number of iterations, the global best score is at least every personal best score |
| `Swarm.StepKeepsOrTakesBest` | Quiz_Problema_Drones.py:61-65 | in one iteration a particle either keeps its personal best, or its best becomes the position it was just evaluated at, with that position's score |
| `Swarm.StepKeepsOrTakesGlobal` | Quiz_Problema_Drones.py:61-69 | in one iteration the global best pair either stays, or becomes the score and position of a particle evaluated in that iteration |
| `Swarm.BestSource` | Quiz_Problema_Drones.py:59-65 | returns the iteration whose evaluation set a particle's final personal best, or -1 when the particle still holds its initial best |
| `Swarm.BestWasSeen` | Quiz_Problema_Drones.py:59-65 | at the end of a run each particle either still holds its initial best, or its best position is one of the positions it was evaluated at and its best score is that position's score |
| `Swarm.GlobalSource` | Quiz_Problema_Drones.py:59-69 | returns the iteration and particle whose evaluation set the final global best, or -1 when it is still the starting pair |
| `Swarm.GlobalWasSeen` | Quiz_Problema_Drones.py:59-69 | at the end of a run the global best pair is either the starting pair, or the score and position of some particle evaluated in some iteration |
| `Swarm.RunResultWasEvaluated` | Quiz_Problema_Drones.py:54-82 | after at least one evaluation, the pair `PSO` returns is a placement some particle was evaluated at, in some iteration, together with that placement's score |
| `Swarm.RunSetsGlobal` | Quiz_Problema_Drones.py:52-69 | with at least one particle and one iteration, the `-1` sentinels are gone: the global position is set and every best score is non-negative |
| `Swarm.RunEmptySwarm` | Quiz_Problema_Drones.py:55-69 | without particles, the global best pair is never changed, so the sentinel pair `(None, -1)` is returned |
| `Swarm.RunResult` | Quiz_Problema_Drones.py:54-82 | the result of a run: the sentinel pair when nothing was evaluated; otherwise a scored placement inside the area whose score is in [0, total mass] and at least every initial placement's score |

## Left out

- `generar_mapa_probabilidades` (lines 16-21): it draws random numbers. The map is an input. Its normalisation (sum 1) is not checked; `CoverageBounds` bounds the score by the map's total mass instead.
- `plot_result` and the matplotlib calls (lines 94-113): rendering only.
- The `print` calls (lines 88-89): output only.
- `np.random.rand` and `np.random.randn` (lines 49, 50, 73, 74): the draws are inputs, and no distribution is modelled. `UnitDraws` requires the position draws to be in [0,1). The velocity draws and `(r1, r2)` may be any reals.
- IEEE floating-point rounding: values are exact reals.
- NumPy arrays of shape `(NUM_DRONES, 2)` are `seq<Point>` values. The program always rebinds these fields to new arrays (`+`, `*`, `np.clip` and `.copy()`), and never updates one in place. The probability map is a `seq<seq<real>>` that is only read. It must be square: `fitness` uses `mapa.shape[0]` for both axes.
- Configuration validation: the program has none. Invalid settings are excluded by preconditions instead.
- Convergence and optimality of the swarm: the program promises nothing about them.

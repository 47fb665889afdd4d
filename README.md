# Planets: a verified model of the simulation engine

The page animates a toroidal N-body simulation. Circular planets attract each
other by Newtonian gravity, optionally merge when one almost contains another,
and move with clamped velocities on a canvas whose edges wrap around. This
project models the engine of `scripts.js`:

- the `Planet` constructor;
- `Reset`;
- `Planet.prototype.step`, `attract` and `combine`;
- the three passes of `Step`: the force pass over all ordered pairs (with the
  eight neighbouring images when wrap-around attraction is on), the merge pass
  with its `splice` and `j--`, and the integrate pass.

Layout:

- `World.dfy`: the settings the engine reads, the random draws, a planet's
  state as a value (`Body`), the square-root oracle, and totals of mass and
  momentum.
- `Integrator.dfy`: `step` on values (`Advance`) and over a collection
  (`AdvanceAll`).
- `ForceField.dfy`: `attract` on values, the tile offsets, and the force pass
  (`ForceSpec`).
- `Merging.dfy`: `combine` on values and the merge pass (`MergeScan`,
  `MergePass`), with the scan position reproduced exactly, `j--` included.
- `Engine.dfy`: the classes. `Planet` has the fields `new Planet()` sets and updates them
  in place. `Simulation` holds `PlanetObjects` as a sequence field. Every method
  is proved against the value-level functions, and the properties of a tick are
  proved about those functions.

Numbers are `real`, so floating-point rounding is not modelled. `Math.sqrt` is a
function parameter `sqrt` constrained by `IsSqrt`: it gives a non-negative root
whose square is its argument. `Math.random`, `Math.cos` and `Math.sin` reach the
constructor through a `Draw` value, and `DrawOk` says what those library calls
guarantee.

Some behaviour of the code is worth stating up front:

- **Wrapping.** `step` subtracts the width only when `x > W`, and adds it only
  when `x < 0`, so a planet exactly on the far edge stays there. `InWorld` is
  therefore the closed range `[0, W] × [0, H]`, and `Advance` keeps planets in
  it when the velocity limit is at most the canvas size.
- **Zero distance.** `attract` has no guard and divides by the distance. The
  model requires (`Apart`) that no image used by a pull lies on the attracted
  planet.
- **Several merges.** After each absorption `Step` steps `j` back, so the
  grown planet is tested against the planet that slid into the freed slot and
  can absorb it too. `OneAbsorbsTwo` shows one planet absorbing two others in
  a single pass. The planets that remain keep their relative order, and the
  collection loses one planet each time `combine` returns true.
- **Spawn range.** `new Planet()` accepts any settings, so `Spawn` is total.
  Properness (mass is radius squared, radius not negative) is proved under
  `SizesOk`, which the start-up values meet.

## Model

| member | source | states |
|---|---|---|
| Integrator.Clamp | scripts.js:148-151 | The two clamps leave a velocity component within `[-limit, limit]`, equal to `max(-limit, min(v, limit))`, and leave it unchanged when it is already in range |
| Integrator.WrapOnce | scripts.js:156-160 | A coordinate moves by at most one extent, stays put on `[0, extent]` (the far edge included), and lands in `[0, extent]` from anywhere in `[-extent, 2·extent]` |
| Integrator.Advance | scripts.js:144-166 | After `step`: velocities are clamped and equal the velocity plus acceleration when that is in range; the move is by the new velocity up to one wrap; a planet on the canvas stays on it; radius and mass are kept; the accumulators are zero; the drawn radius halves its gap to the radius |
| Integrator.AdvanceAll | scripts.js:244-247 | The integrate pass applies `step` to each planet in place, keeps the count and the total mass, keeps planets proper, and keeps them on the canvas when the velocity limit is at most the canvas size |
| Integrator.DisplayRadiusApproaches | scripts.js:162 | After `n` ticks the gap between the drawn radius and the radius is the first gap halved `n` times, and the drawn radius never passes the radius |
| ForceField.Tiles | scripts.js:222-231 | Nine offsets with wrap-around and one without, the direct pull `(0, 0)` first |
| ForceField.Image | scripts.js:169-170 | Tile 0 is the other planet itself; for a non-negative extent, a negative tile lies on the low side of it and a positive tile on the high side |
| ForceField.Acceleration | scripts.js:179-182 | The acceleration never exceeds the limit; it is Newton's `G·m/d²` when that is within the limit and the limit otherwise; a massless partner gives zero when the limit is not negative |
| ForceField.Along | scripts.js:184-185 | A zero magnitude gives no acceleration, and a zero offset component gives none along that axis |
| ForceField.Pull | scripts.js:168-185 | A massless partner exerts no pull when the limit is not negative, and an image level with this planet on one axis pulls nothing along that axis |
| ForceField.TilesCoverNeighbourhood | scripts.js:222-232 | Without wrap-around there is the single offset (0, 0); with it there are nine offsets, pairwise distinct, exactly the pairs of {-1, 0, 1}² |
| ForceField.ApartFromMoved | scripts.js:169-177 | Whether a pull is defined depends only on the two positions, so it survives changes to the accumulators |
| ForceField.Distance | scripts.js:175-177 | The Euclidean distance of a non-zero offset is positive and its square is the squared norm |
| ForceField.PullIsClampedNewton | scripts.js:168-186 | With Euclidean distance, a pull's squared magnitude is the square of `G·m/d²` lowered to the acceleration limit; the pull is parallel to the offset to the image and points toward it when that magnitude is not negative |
| ForceField.PullEuclidean | scripts.js:175-185 | With Euclidean distance, the pull is the clamped Newton magnitude along the offset to the image, divided by the distance |
| ForceField.AlongGeometry | scripts.js:184-185 | The vector `m·(dx, dy)/d` with `d² = dx² + dy²` has squared length `m²`, is parallel to (dx, dy), and points along it for `m ≥ 0` |
| ForceField.ClampMatches | scripts.js:179-182 | The clamped acceleration of `attract` at distance `d` equals the clamped pull at the squared distance `d²` |
| ForceField.ConstantDistancePull | scripts.js:173-185 | With constant distance, the pull is the clamped `G·m/300²` times the offset to the image over 300, whatever the separation |
| ForceField.Attract | scripts.js:168-186 | `attract` changes only the acceleration accumulator |
| ForceField.AttractTiles | scripts.js:222-232 | The tile calls for one ordered pair change only the accumulator |
| ForceField.AttractTilesSnoc | scripts.js:222-232 | Each further tile call adds that tile's pull after the earlier ones |
| ForceField.AttractRow | scripts.js:220-233 | The inner loop of the force pass over partners `0..upTo-1` changes only the accumulator of planet `i` |
| ForceField.ForceSpec | scripts.js:219-233 | The force pass keeps the count, gives each planet its full row of pulls, changes nothing but accelerations, and keeps planets proper and on the canvas |
| ForceField.ForceSpecConserves | scripts.js:219-233 | The force pass conserves the total mass and both components of the total momentum |
| ForceField.ScenarioRows | scripts.js:219-233 | Without wrap-around, each of two apart planets takes exactly one direct pull from the other |
| ForceField.ScenarioPullRight | scripts.js:168-186 | A planet of mass 25 at distance 10 to the right, with G = 1, pulls by (0.25, 0) |
| ForceField.ScenarioPullLeft | scripts.js:168-186 | The same planet at distance 10 to the left pulls by (-0.25, 0) |
| ForceField.TwoPlanetScenario | scripts.js:219-233 | For two planets of mass 25 that are 10 apart with G = 1 and no wrap-around, the force pass gives accelerations (0.25, 0) and (-0.25, 0) and changes nothing else |
| ForceField.ScenarioPullConstant | scripts.js:173-185 | With constant distance, a planet one unit away pulls by `25/300²` times 1/300 |
| ForceField.ConstantDistanceScenario | scripts.js:173-185 | With constant distance the force pass uses distance 300 even for adjacent planets |
| Merging.Separation | scripts.js:189-191 | The merge distance is non-negative and its square is the squared offset, with no wrap-around |
| Merging.Overlap | scripts.js:189-195 | A passing merge test puts the centre of the smaller planet inside the larger one; for equal radii it holds exactly when the distance is below half the radius |
| Merging.OverlapMassPositive | scripts.js:195-197 | Two proper planets that pass the merge test have a positive total mass, so the proportions are defined |
| Merging.Combine | scripts.js:188-214 | `combine` reports exactly the merge test `d + rSmall/2 < rLarge`; without a merge the planet is unchanged; with one it is proper, holds the sum of the masses and the larger drawn radius, and the accelerations are its own |
| Merging.Blend | scripts.js:199-202 | Weights that sum to one leave a common value unchanged, and weights 1 and 0 pick one side |
| Merging.Shift | scripts.js:204-205 | A fraction 0 stays put, a fraction 1 reaches the other planet, and a move onto the same coordinate is none |
| Merging.WeightedMean | scripts.js:199-202 | The proportion-weighted velocity times the total mass is the sum of the two momenta |
| Merging.ShiftIsBarycentre | scripts.js:204-205 | Moving toward the other planet by its mass proportion lands on the barycentre |
| Merging.Shares | scripts.js:196-197 | The two proportions are non-negative and add up to one |
| Merging.ShiftBetween | scripts.js:204-205 | The merged coordinate lies between the two planets' coordinates |
| Merging.CombineFields | scripts.js:199-210 | Proof helper: the merged planet's coordinates and velocities are the blends and shifts by the two proportions, and its mass is the sum |
| Merging.CombineConserves | scripts.js:196-210 | A merge conserves mass and both components of momentum |
| Merging.CombineBarycentre | scripts.js:204-205 | The merged planet sits on the barycentre, on the segment between the two centres |
| Merging.CombineInWorld | scripts.js:204-205 | A merge of two planets on the canvas gives a planet on the canvas |
| Merging.OverlapSymmetric | scripts.js:189-195 | The merge distance and the merge test do not depend on the order of the two planets |
| Merging.Absorb | scripts.js:239-240 | After `i` absorbs `j`, the collection is one shorter, slot `i` holds the merged planet, `j` is spliced out, the rest is in order, and the planets stay proper |
| Merging.AbsorbInPlace | scripts.js:239-240 | Proof helper: writing the result of `combine` into slot `i` keeps it proper; after a merge, splicing `j` out gives `Absorb`, and without one nothing changed |
| Merging.AbsorbConserves | scripts.js:239-240 | An absorption conserves every total and keeps the planets on the canvas |
| Merging.MergeScan | scripts.js:235-242 | The merge pass keeps planets proper, never grows the collection, and leaves the planets before `i` untouched |
| Merging.MergeScanRetests | scripts.js:239-241 | Proof helper: after an absorption the scan goes on at the same `(i, j)`, so the planet that slid into slot `j` is tested next against the grown planet `i` |
| Merging.ScanStep | scripts.js:237-242 | One test, with `j++` or `splice` plus `j--`, leads to a position from which the scan has the same result, and the remaining work decreases |
| Merging.MergeCount | scripts.js:235-242 | The scan from `(i, j)` leaves exactly as many planets fewer as the times `combine` returns true in it |
| Merging.MergePass | scripts.js:235-242 | The merge pass keeps planets proper, never adds planets, never empties a non-empty collection, and loses exactly one planet per absorption (`MergeCount`) |
| Merging.MergeScanKeepsFirst | scripts.js:235-242 | The planet at the outer index is never removed, so at least `i + 1` planets remain |
| Merging.MergeScanConserves | scripts.js:235-242 | The merge pass conserves mass and both components of momentum, and keeps the planets on the canvas |
| Merging.SettledNextRow | scripts.js:236-238 | At the end of a row, the pairs still to test are those of the next row |
| Merging.SettledNext | scripts.js:237-238 | Past `j`, the pairs still to test are the same, less `(i, j)` when `i < j` |
| Merging.MergeScanSettled | scripts.js:235-242 | The merge pass leaves the collection unchanged exactly when no pair it tests passes the merge test (both directions) |
| Merging.MergeThreshold | scripts.js:195-210 | Radius 10 and radius 3 at distance 8 merge (8 + 1.5 < 10) into mass 109, 9/109 of the way toward the smaller planet; at distance 9 they do not merge |
| Merging.ClusterFirstMerge | scripts.js:188-214 | A planet of radius 10 absorbs one of radius 1 at distance 3, growing to mass 101 and moving 3/101 toward it |
| Merging.ClusterSecondMerge | scripts.js:188-214 | The grown planet, of radius √101, absorbs a planet of radius 1 on its other side and returns to the origin with mass 102 |
| Merging.OneAbsorbsTwo | scripts.js:235-242 | In a pass over three planets the first absorbs both others, `combine` returns true twice, and one planet of the total mass remains |
| Engine.Spawn | scripts.js:101-114 | A new planet's accelerations and drawn radius are zero, its mass is the square of its radius, and its radius exceeds the minimum size by the drawn fraction of the size range |
| Engine.DefaultsAreSound | scripts.js:5-24 | The start-up values give a valid size range, a non-negative canvas, and a velocity limit within the canvas size, so new planets are proper and a tick keeps them on the canvas |
| Engine.StepSpec | scripts.js:216-248 | A tick leaves one planet fewer for each time `combine` returns true (`StepMerges`) |
| Engine.SubsequenceSplice | scripts.js:240 | Splicing one planet out of an order-preserving subsequence leaves one, with the positions before it unchanged |
| Engine.FractionOf | scripts.js:102-104 | A drawn fraction of a non-negative extent lies within it |
| Engine.SpawnProperties | scripts.js:101-114 | A new planet is on the canvas, its mass is the square of its radius, its radius lies in the size range, its speed is the drawn fraction of the start speed, and its acceleration and drawn radius are zero |
| Engine.SpawnAll | scripts.js:34-37 | `Reset` makes one planet per draw, in order |
| Engine.SpawnAllProper | scripts.js:34-37 | With sound draws, a fresh collection is proper and on the canvas |
| Engine.StepSpecProperties | scripts.js:216-248 | A tick conserves total mass; keeps planets proper; never adds planets; removes none when merging is off and not all of them when it is on; leaves velocities within the limit and accumulators at zero; keeps planets on the canvas when the velocity limit is at most the canvas size |
| Engine.Planet.constructor | scripts.js:101-114 | `new Planet()` sets the fields to the state `Spawn` gives for the draw |
| Engine.Planet.Step | scripts.js:144-166 | `step` updates the fields in place to `Advance` of the old state |
| Engine.Planet.Attract | scripts.js:168-186 | `attract` updates this planet's fields to `ForceField.Attract` of its old state and the other planet |
| Engine.Planet.AttractImages | scripts.js:222-232 | The calls for one ordered pair apply the direct pull and, with wrap-around, the eight image pulls in the order of `Step` |
| Engine.Planet.AttractLeftImages | scripts.js:224-225 | The calls for tiles (-1, 0) and (-1, -1) extend the applied prefix of the tile list by two |
| Engine.Planet.AttractUpperImages | scripts.js:226-227 | The calls for tiles (0, -1) and (1, -1) extend the prefix by two |
| Engine.Planet.AttractRightImages | scripts.js:228-229 | The calls for tiles (1, 0) and (1, 1) extend the prefix by two |
| Engine.Planet.AttractLowerImages | scripts.js:230-231 | The calls for tiles (0, 1) and (-1, 1) complete the nine |
| Engine.Planet.AttractTile | scripts.js:222-231 | One `attract` call applies the pull of the tile at position `k` after the ones before it |
| Engine.Planet.Combine | scripts.js:188-214 | `combine` returns the merge test and updates the fields to `Merging.Combine` of the two states |
| Engine.Simulation.constructor | scripts.js:35 | A simulation starts with no planets, in a valid state |
| Engine.Simulation.Reset | scripts.js:34-37 | `PlanetObjects` becomes `numberOfPlanets` fresh, distinct planets whose states are `SpawnAll` of the draws; with sound settings and draws they are proper and on the canvas |
| Engine.Simulation.ApplyForces | scripts.js:219-233 | The force loops leave the collection in place, with the states `ForceSpec` of the old ones |
| Engine.Simulation.AttractRow | scripts.js:220-233 | The inner force loop for planet `i` gives it its row, and the other planets keep their states |
| Engine.Simulation.AttractOthers | scripts.js:220-233 | The loop over the partners of `i`, skipping `i`, leaves planet `i` with its full row |
| Engine.Simulation.AttractPartner | scripts.js:221-233 | One partner `j ≠ i` extends planet `i`'s row by one partner |
| Engine.Simulation.CombineAll | scripts.js:235-242 | The merge loops leave distinct planets with the states `MergePass` of the old states; the survivors are old planets in their old relative order, and the collection loses exactly one planet per `combine` that returned true (`MergeCount`) |
| Engine.Simulation.AbsorbLater | scripts.js:237-242 | The inner merge loop for planet `i`, with the `splice` and the `j--`, leads to the same final result as the scan from `(i, 0)`; the planets up to `i` keep their places, the survivors keep their order, and one planet is lost per absorption |
| Engine.Simulation.TestPair | scripts.js:238-241 | One round of the inner merge loop makes the scan step `ScanStep`; the collection loses one planet exactly when `combine` returned true, which happens only for `i < j`, and the survivors keep their order |
| Engine.Simulation.TryCombine | scripts.js:238-239 | One `combine` call for `i < j` writes the result into planet `i` only; after a merge, splicing `j` out gives `Absorb`, and without one nothing changed |
| Engine.Simulation.RemoveAt | scripts.js:240 | `splice(j, 1)` removes exactly planet `j` and keeps the others distinct and in their relative order |
| Engine.Simulation.StepAll | scripts.js:244-247 | The integrate loop leaves the collection in place, with the states `AdvanceAll` of the old ones |
| Engine.Simulation.StepAt | scripts.js:246 | `step` on planet `i` advances it and leaves the other planets alone |
| Engine.Simulation.MergeIfOn | scripts.js:235-242 | The merge pass runs only when merging is switched on; otherwise the collection and its order are unchanged and nothing is absorbed |
| Engine.Simulation.Step | scripts.js:216-248 | A tick leaves the states `StepSpec` of the old ones, in distinct old planets that keep their relative order, one fewer per `combine` that returned true (`StepMerges`) |

## Left out

- Drawing is not modelled: `draw`, `drawCircle`, `ClearCanvas` and the fade are rendering only.
- The UI is not modelled: `UpdateValues` and `UpdateAllControls` wire page controls to globals. `Settings` stands for the globals as they are read during one tick.
- The scheduling is not modelled: the `setTimeout` that repeats `Step` and the `window.onload` start-up. The defaults of `window.onload` are the constant `Defaults` (`DefaultsAreSound`). `Fade` and `FPS` only affect drawing and timing.
- Floating-point arithmetic is not modelled: rounding, infinities and `NaN` are absent because numbers are `real`.
- `Math.sqrt`, `Math.random`, `Math.cos` and `Math.sin` are inputs: the `sqrt` oracle and a `Draw`. `DrawOk` states what they guarantee. `Math.PI` enters only through the cosine and sine.
- `Math.pow(r, 2)` is written as a product.
- `NumberOfPlanets` is a `nat`. A fractional or negative value from the page is not modelled.
- Engine.Simulation.Step: requires `Apart`, as do the force-pass members it calls. `Apart` says that no image used by a pull sits on the attracted planet. `attract` divides by a zero distance there and produces non-finite values that are not modelled.
- Engine.Simulation.Reset: takes one draw per planet as a parameter instead of calling the random generator.
- The absorbed planet's accumulated acceleration is dropped, as in `combine`: the merged planet keeps only its own (`Merging.Combine`).
- Engine.Planet.Attract and Engine.Planet.Combine compute their products through `World.Mul` and the helpers `Along`, `Blend` and `Shift`. They perform the operations of `attract` and `combine` in the same order.
- The force calls for one ordered pair are grouped into the helper methods `AttractLeftImages` … `AttractLowerImages`. The calls and their order are those of `Step`.

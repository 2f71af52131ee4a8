# Orbit: a verified model of the gravity simulation

Orbit is a small browser toy: a few planets and a sun pull on each other
under Newtonian gravity, and WebGL draws them as textured squares. Every frame
does four things:
- a force pass over all pairs of masses (`Orbit.solve`);
- an explicit Euler step of every mass (`Mass.step`);
- a sort of the mass list by depth, for painter's-order drawing;
- one `drawPlanet` per mass, which folds six 4x4 matrices together with the
  hand-written `multiplyMat4`.

Before any of this, `loadImages` fetches the textures and waits until every one
of them has reported back.

This project models that core in Dafny, with numbers as `real`.

- `host.dfy`: `Option`, `Math.PI`, and the host's `Math.sqrt/log/cos/sin`. These
  are passed in as plain functions; the only property used is that `sqrt` is
  non-zero away from zero.
- `vectors.dfy`: the 3-vector helpers.
- `physics.dfy`: the physics on plain values.
  - `Solved` is the force pass. `StepBody`/`Advance` are the Euler step. `Tick`
    is both, and `Run` is a sequence of ticks.
  - The lemmas say what these mean: Newton's third law per pair, zero total
    force, frozen bodies stay put, and a lone body drifts in a straight line.
- `matrices.dfy`: the true product `MatMul`, and `MultiplyMat4` as written
  (entry 15 included). It also holds the matrices `drawPlanet` builds, and the
  proof that the slip never shows on them.
- `render.dfy`: the `Renderer` state, and `DrawPlanet`'s fold as a loop. The fold
  is proved to give the true product of the six factors.
- `simulation.dfy`: the `Mass` and `Orbit` classes.
  - They update fields and the list in place.
  - The physics methods are proved against the functions in `physics.dfy`:
    - `Mass.Step`, `StepEach` and `Orbit.Integrate` against `StepBody` and `Advance`;
    - `Orbit.AccumulateForce` and `Orbit.Solve` against `NetForce` and `Solved`;
    - `Orbit.Move` against `Tick`.
  - `Mass.constructor` and `Orbit.AddPlanet` are tied to `NewBody` in `simulation.dfy`.
  - `Orbit.DrawOne` and `Orbit.DrawAll` are tied to `DrawOf` and `DrawsOf` in `simulation.dfy`.
  - `Orbit.SortByDepth` is tied to no function. It states a property: the list
    becomes a permutation of itself in non-increasing depth.
  - `Orbit.Step` is one frame.
- `assets.dfy`: `loadImages` as a table of images keyed by file name, with the
  shared load/error handler and the completeness scan.

Random draws (`Math.random`) are parameters.

Two facts about the code are worth stating up front:
- The starting spin drawn at `js/gravity.js:36` is `random * 2pi * 2 - 2pi`,
  which lies in [-2pi, 2pi).
- `multiplyMat4` has exactly one wrong entry, entry 15 at `js/gravity.js:311`.
  The other fifteen entries are proved equal to the true product.

## Model

| member | source | states |
|---|---|---|
| Vectors.Add | js/gravity.js:3-5 | definition of `vectorAdd`: the componentwise sum |
| Vectors.Sub | js/gravity.js:7-9 | the difference is what must be added to `b` to reach `a` |
| Vectors.Scale | js/gravity.js:11-13 | definition of `vectorScale`: every component times the factor |
| Vectors.Neg | js/gravity.js:280-286 | negation (used for the camera translation) is the additive inverse |
| Vectors.Dist | js/gravity.js:15-17 | the length is non-zero whenever the squared length is |
| Vectors.DistSquared | js/gravity.js:19-21 | definition of `vectorDistSquared`: the sum of the squared components |
| Vectors.Normalize | js/gravity.js:23-25 | definition of `vectorNormalize`: the vector scaled by one over its length, defined only where the squared length is non-zero |
| Vectors.SubAntisymmetric | js/gravity.js:7-9 | `vectorSub(a, b)` is minus `vectorSub(b, a)` |
| Vectors.DistEven | js/gravity.js:15-21 | squared length and length do not see the sign of a vector |
| Vectors.NormalizeOdd | js/gravity.js:23-25 | the unit vector of `-v` is minus the unit vector of `v` |
| Vectors.ScaleNeg | js/gravity.js:11-13 | scaling commutes with negation |
| Vectors.ScaleDistributes | js/gravity.js:11-13 | scaling by `a + b` is scaling by `a` plus scaling by `b` |
| Physics.Contribution | js/gravity.js:103-105 | definition of one pull: the unit vector from `on` toward `from`, scaled by `gravity` |
| Physics.Gravity | js/gravity.js:104 | definition of `gravity`: the product of the masses over the squared distance |
| Physics.PartialForce | js/gravity.js:98-107 | definition of the inner loop: the force starts at zero (the reset at line 98) and gains the pull of every body `j < n` other than `i` |
| Physics.NetForce | js/gravity.js:98-107 | definition of the net force: the inner loop run over the whole list |
| Physics.ContributionAntisymmetric | js/gravity.js:104-106 | the pull of `b` on `a` is exactly minus the pull of `a` on `b` |
| Physics.Solved | js/gravity.js:94-109 | after the force pass, only forces change, and frozen bodies are untouched |
| Physics.LoneMassFeelsNothing | js/gravity.js:98-107 | a mass alone in the list ends the force pass with zero force |
| Physics.ForcesCancel | js/gravity.js:94-109 | with nothing frozen, the forces the pass leaves sum to zero |
| Physics.Momentum | js/gravity.js:48-56 | definition of the total momentum: the sum of `mass * velocity` over the first `m` bodies |
| Physics.StepImpulse | js/gravity.js:54-55 | an Euler step of an unfrozen body adds `force * dt` to `mass * velocity` |
| Physics.MomentumAfterTick | js/gravity.js:75-109 | over any prefix of the list, a tick adds `dt` times the total force to the momentum |
| Physics.MomentumConserved | js/gravity.js:75-109 | with nothing frozen, a tick keeps the total momentum |
| Physics.PairForces | js/gravity.js:96-107 | in a list of two unfrozen bodies, the net force on each is the pull of the other |
| Physics.StepMirror | js/gravity.js:48-56 | mirrored unfrozen bodies of equal mass under mirrored forces step to mirrored positions and velocities |
| Physics.SymmetricPairStaysSymmetric | js/gravity.js:75-109 | two equal unfrozen masses placed symmetrically about the origin with opposite velocities are still symmetric, in position and velocity, after a tick |
| Physics.StepBody | js/gravity.js:48-56 | definition of `Mass.step` on a value: rotation grows by spin times dt; a frozen body stops there; otherwise the position moves by the old velocity, then the velocity by force/mass times dt |
| Physics.Advance | js/gravity.js:78-80 | stepping every body keeps mass, spin, frozen flag, force, image and color |
| Physics.Tick | js/gravity.js:76-80 | one physics tick keeps the list length, masses, spins and frozen flags |
| Physics.Run | js/gravity.js:76-80 | ticks keep the length and keep every mass non-zero |
| Physics.FrozenBodyStaysPut | js/gravity.js:48-51 | a frozen body keeps position, velocity and force over any run, and its rotation grows by spin times the elapsed time |
| Physics.LoneBodyDrifts | js/gravity.js:53-55 | a lone body moves by velocity times total time however the time is split, and its velocity never changes |
| Matrices.ProductEntriesAt | js/gravity.js:305-313 | every entry built so far is its row times its column |
| Matrices.MatMulEntries | js/gravity.js:305-313 | all sixteen entries of the true product, each as its row times its column |
| Matrices.MatMulEntry | js/gravity.js:305-313 | entry `k` of the true product is row `k / 4` times column `k % 4` |
| Matrices.MultiplyMat4 | js/gravity.js:305-313 | equals the true product in entries 0-14; entry 15 is off by `(a[15] - a[14]) * b[11]` |
| Matrices.MultiplyMat4ExactWhen | js/gravity.js:305-313 | `multiplyMat4` is the true product if and only if `(a[15] - a[14]) * b[11] == 0` |
| Matrices.MultiplyMat4NotLeftIdentity | js/gravity.js:311 | identity times a matrix with `b[11] = 1` is not that matrix |
| Matrices.MatMulIdentity | js/gravity.js:305-313 | the identity is a two-sided unit of the true product |
| Matrices.AffineProduct | js/gravity.js:288-297 | affine transforms compose to an affine transform |
| Matrices.MultiplyMat4Affine | js/gravity.js:288-297 | on an affine right operand (`b[11] = 0`), `multiplyMat4` is the true product |
| Matrices.ScalingMatrix | js/gravity.js:245-250 | the scaling matrix is affine |
| Matrices.ZRotationMatrix | js/gravity.js:255-260 | the z rotation is affine |
| Matrices.YRotationMatrix | js/gravity.js:273-278 | the scene's y rotation is affine |
| Matrices.TranslationMatrix | js/gravity.js:263-268 | a translation is affine |
| Matrices.ChainProductAffine | js/gravity.js:288-297 | a chain of affine factors multiplies out to an affine transform |
| Render.Factors | js/gravity.js:288 | six factors, the last being the projection; all affine when the projection is |
| Render.Projection | js/gravity.js:206-215 | the projection is affine; it divides x by 20 times the aspect ratio, and y and z by 20 |
| Render.Renderer.constructor | js/gravity.js:111-216 | initialized exactly when both shaders compile and the program links; only then are the projection and textures set; camera at (0, 0, -10), angle 0, no y rotation |
| Render.PlanetDraw | js/gravity.js:238-302 | the draw is affine, carries the color, and has a texture exactly when one was made for the image, and then it is that image's texture |
| Render.Renderer.DrawPlanet | js/gravity.js:238-302 | the `multiplyMat4` fold gives the true product of the six factors: the call is `PlanetDraw` of the renderer's current view |
| Simulation.NewBody | js/gravity.js:28-38 | missing arguments fall back to defaults: position and velocity to zero, a missing or zero mass to 1, a missing or empty image name to `planet128.png`; force zero, white, not frozen; the mass is never zero |
| Simulation.DrawnAngles | js/gravity.js:35-36 | draws in [0, 1) put rotation in [0, 2pi) and spin in [-2pi, 2pi) |
| Simulation.RandomVector | js/gravity.js:383-390 | a random vector always lies in the plane y = -z |
| Simulation.Mass.constructor | js/gravity.js:28-38 | the new mass holds `NewBody` of the arguments |
| Simulation.Mass.Initialize | js/gravity.js:40-42 | only the force changes, and it becomes zero |
| Simulation.Mass.ApplyForce | js/gravity.js:44-46 | only the force changes, and `f` is added to it |
| Simulation.Mass.Step | js/gravity.js:48-56 | rotation grows by spin times dt; a frozen mass does nothing else; otherwise position moves by the old velocity, then velocity by force/mass; force, mass and the rest are unchanged |
| Simulation.StepEach | js/gravity.js:78-80 | every listed mass is stepped by the same dt (`Advance` of the old states) |
| Simulation.InsertByDepth | js/gravity.js:82-86 | the first `i + 1` masses end in descending z; the list is a permutation of the old one; the tail is untouched |
| Simulation.InitialBodies | js/gravity.js:58-70 | five bodies, none frozen, every mass non-zero; the last is the sun: mass 500, spin 0.2, at the origin |
| Simulation.NewStartingMasses | js/gravity.js:61-70 | five distinct new masses whose states are `InitialBodies` |
| Simulation.Orbit.constructor | js/gravity.js:58-73 | time scale 1; the list holds five new masses whose states are `InitialBodies`, earth first and sun last; the renderer is the one given |
| Simulation.Orbit.AddMass | js/gravity.js:394 | the mass joins the end of the list; nothing else changes |
| Simulation.Orbit.AddPlanet | js/gravity.js:382-395 | a fresh mass built from the handler's draws, with the planet image and a random opaque color, joins the end of the list |
| Simulation.Orbit.AccumulateForce | js/gravity.js:96-107 | the mass at `i` ends with exactly its net force; nothing else about it changes |
| Simulation.Orbit.Solve | js/gravity.js:94-109 | the new states are `Solved` of the old ones |
| Simulation.Orbit.Integrate | js/gravity.js:78-80 | the new states are `Advance` of the old ones |
| Simulation.Orbit.SortByDepth | js/gravity.js:82-86 | the list becomes a permutation of itself in non-increasing z, and no mass changes |
| Simulation.DrawOf | js/gravity.js:88-91 | the draw of a body at scale `1 + log(mass)` is affine, carries the body's color, and is textured exactly when its image has a texture |
| Simulation.DrawsOf | js/gravity.js:88-91 | definition of the draw loop on values: the draws of the bodies in list order, one per body |
| Simulation.DrawsOfAt | js/gravity.js:88-91 | draw `k` of a list is the draw of body `k` |
| Simulation.Orbit.DrawOne | js/gravity.js:89-90 | the call for the mass at `i` is `DrawOf` its state in the current view |
| Simulation.Orbit.DrawAll | js/gravity.js:88-91 | the draws are `DrawsOf` the listed states: one per mass, in list order, at scale `1 + log(mass)` |
| Simulation.Orbit.Move | js/gravity.js:76-80 | the new states are `Tick` of the old ones with the given dt |
| Simulation.Orbit.SortAndDraw | js/gravity.js:82-91 | depth-ordered permutation of the list with no mass changed, then `DrawsOf` the states in the new order |
| Simulation.Orbit.Step | js/gravity.js:75-92 | one frame: every mass is ticked by `timeStep * timeScale` and the time scale is kept; the list is a depth-ordered permutation of the old one; the draws are `DrawsOf` the states in the new order |
| Assets.LastSlash | js/gravity.js:348 | definition of `lastIndexOf("/")`: an index in `-1 .. |s| - 1` |
| Assets.FileNameOf | js/gravity.js:348 | definition of the file name: `substring(lastIndexOf("/") + 1)` |
| Assets.LastSlashIsLast | js/gravity.js:348 | `lastIndexOf("/")` finds a slash when there is one, and no slash follows it |
| Assets.FileNameOfTail | js/gravity.js:348 | the file name is the slash-free tail of the address, cut just after a slash |
| Assets.Sources | js/gravity.js:361-366 | each requested name is fetched from `img/` + name |
| Assets.FileNameOfPath | js/gravity.js:348 | a name without a slash is recovered from any address that puts it after a slash |
| Assets.SourcesNameTheirFiles | js/gravity.js:348-365 | every requested address gives back its own name |
| Assets.Waiting | js/gravity.js:341-344 | the starting table has exactly the requested names, all waiting |
| Assets.Record | js/gravity.js:346-349 | definition of one load or error event: the image is stored under its file name, overwriting any earlier entry |
| Assets.RecordAll | js/gravity.js:346-349 | definition of a run of events: each recorded in arrival order |
| Assets.RecordAllKeepsFiled | js/gravity.js:349 | an image once filed stays filed |
| Assets.RecordAllDelivers | js/gravity.js:349 | the name an event carries has an image from then on |
| Assets.RecordAllSkips | js/gravity.js:349 | a name no event carries keeps its entry |
| Assets.RecordAllNew | js/gravity.js:349 | a name not requested appears only when some event carries it |
| Assets.AllArrivedComplete | js/gravity.js:349-357 | when every requested name has reported back, the table is complete |
| Assets.ResolvedName | js/gravity.js:348-365 | the file name of a resolved `img/` address is the requested name |
| Assets.EveryRequestAnswered | js/gravity.js:340-366 | once every requested address answers (load or error), the callback is due |
| Assets.MissingIncomplete | js/gravity.js:349-357 | while some requested name has not reported back, the callback is not due |
| Assets.CompleteStays | js/gravity.js:349-357 | a complete table stays complete, so every later event fires the callback again |
| Assets.ImageLoader.constructor | js/gravity.js:341-344 | every requested name starts out waiting |
| Assets.ImageLoader.FinishedLoading | js/gravity.js:351-354 | the scan is true exactly when no entry is waiting |
| Assets.ImageLoader.OnLoad | js/gravity.js:346-359 | the image is filed under its file name; the callback fires exactly when the table is now complete |
| Assets.VerdictsAt | js/gravity.js:349-357 | the verdict after event `k` is whether the table is complete once events `0..k` are recorded |
| Assets.LoadImages | js/gravity.js:340-367 | after each event, the callback fires exactly when the table is complete |

## Left out

- WebGL is not modelled: the context, shaders, buffers, texture upload and the `gl.*` calls that draw. A draw is the `DrawCall` value it would issue. Shader compilation and linking become booleans passed to the `Renderer` constructor.
- `mainLoop` and everything around it are not modelled: the timer, focus/blur tracking, jQuery wiring, the toggle button, and the `renderer.a` update that only runs while y rotation is on. All of these are scheduling and DOM plumbing.
- `Math.sqrt`, `Math.log`, `Math.cos` and `Math.sin` are parameters, not definitions. The only assumption is that `sqrt` is non-zero away from zero.
- `Math.random` results are parameters. `DrawnAngles` gives their ranges.
- IEEE-754 rounding, NaN and Infinity are not modelled. Numbers are exact reals.
- Two bodies at the same position make the source divide by zero and spread NaN. The force members require `Separated` instead, and `Run` returns `None` there.
- Simulation.InitialBodies: does not state that the five starting positions are pairwise apart. So the first frame's `Separated` precondition is the caller's to establish.
- Simulation.Orbit.SortByDepth: a stable insertion sort stands in for `Array.prototype.sort`. Only the result's order and permutation are stated, not which of two equal-depth masses comes first.
- Simulation.Orbit.Step: the `drawPlanet` graphics effects are not modelled. Each draw is described by the call it makes.
- Render.Renderer.constructor: a zero canvas width or height is excluded only when setup succeeds. The source computes the aspect ratio only after both shaders compile and the program links. There it would give Infinity or NaN rather than an error, and floating point is not modelled.
- `Image` objects are reduced to their address and a loaded flag. Image decoding is not modelled.
- Assets.LoadImages: the callback is reported as a boolean after each event. The callback itself, which starts the renderer and the main loop, is not modelled.

## Findings

| source | as written | input that shows it | evidently intended | confidence | as-written member | corrected member |
|---|---|---|---|---|---|---|
| js/gravity.js:311 | entry 15 of `multiplyMat4` (`Matrices.MultiplyMat4`) adds `a[15]*b[11]` | `a` = identity, `b` = identity with `b[11] = 1`: entry 15 comes out 2 instead of 1 | `a[14]*b[11]`, the row-by-column product | not executed | Matrices.MultiplyMat4NotLeftIdentity | Matrices.MatMulIdentity |

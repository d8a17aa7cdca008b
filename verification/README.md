# celestial-sim core in Dafny

A model of the simulation engine of celestial-sim, a Three.js orbit viewer, with proofs about that model. It covers three parts.

- **Integrator** (`physics.dfy`, module `Physics`). It models gravitational acceleration towards a fixed central mass at the origin and one classical fourth-order Runge-Kutta (RK4) step of a body's position and velocity.
- **Trail buffer** (`trails.dfy`, module `Trails`). This is a body's history of positions, oldest first.
  - New positions are only ever appended.
  - A greedy trim drops the oldest points while the history's arc length exceeds one orbit's circumference and more than one point is left.
  - The render form holds the scaled coordinates plus a linear opacity ramp.
- **Simulation manager** (`simulation.dfy`, module `Simulation`). This covers:
  - the constructor's state;
  - registering bodies and trails;
  - the per-frame physics update, which skips the central body (the body named `Earth`);
  - the per-frame trail update.

Shared vector arithmetic lives in `vectors.dfy` (module `Vectors`).

Modelling choices:

- **Numbers.** Floating point is replaced by exact `real` arithmetic. `Math.pow(r, 3)` is `r * r * r`.
- **Vector length.** The length of a vector needs a square root, so it is a parameter `norm: Vec3 -> real`. `a.distanceTo(b)` is `norm(a - b)`. Properties that depend on the norm being a norm take `IsNorm` as a hypothesis; the inverse-square magnitude also takes `IsHomogeneous`. `IsNorm` means non-negative and zero exactly at the zero vector. `IsHomogeneous` means the length scales by `|c|` when the vector is scaled by `c`.
- **Value semantics.** Vectors, trails and bodies are immutable values. The source clones vectors before mutating them, and `addPoint` stores a clone. So value semantics is faithful as long as each `Trail` object is attached to at most one body (see "## Left out").
- **Body identity.** Bodies are JavaScript objects compared by identity. A `BodyId` stands for that identity, and `objects: map<BodyId, Body>` holds the current record of every body the manager can reach. `AddBody` and `SetTrail` take the id together with the record. They require the two to denote one object (`SameObject`): a known id must come with its current record.
- **Physics pass.** `updatePhysics` mutates each listed body in place. `UpdatePhysics` is a loop with the same shape, proved equal to the reference pass `Advance`.
- **Trail pass.** `updateTrails` touches each trail entry independently. `UpdateTrails` is the map that sends each entry to `AdvanceTrail` (`addPoint` then `capTrail`) and `Render` (`updateGeometry`). Two methods model the source's loops and are proved equal to these functions: `CapTrail` to `Capped`, and `UpdateGeometry` to `Render`.

Behaviours of the code that the model reproduces:

- **Central body.** It is the body whose name is `Earth`, not a role fixed at construction.
- **Repeated registration.** `addBody` does not detect duplicates. A body listed twice is stepped twice per frame (`AdvanceCounts`).
- **Trails on unlisted bodies.** `setTrail` accepts a body that was never added. Its trail still receives the body's (unchanging) position every frame.
- **The central body's trail.** A trail attached to the central body also grows.
- **Render scale.** Trails are rendered at the manager's `scale`. The trail's own `scale` field is never read.
- **No validation.** Nothing checks `dt` or `centralMass` at construction, so the model puts no precondition on them.

## Model

| member | source | states |
|---|---|---|
| Physics.Acceleration | src/Physics.js:11-15 | Zero at a position of length zero, in particular at the origin. Zero everywhere when `G * centralMass` is 0. Always parallel to the position. For an attracting mass it points back towards the origin; for a repelling one (`G * centralMass < 0`) it points away. |
| Physics.AccelerationMagnitude | src/Physics.js:12-14 | Away from the origin, the magnitude times `r^2` equals `abs(G * centralMass)`: the inverse-square law. |
| Physics.Stages | src/Physics.js:27-47 | Over `dt = 0` all four stages vanish. In a field that is zero everywhere each one is `(vel * dt, 0)`. Which trial states the stages are taken at is fixed through `IntegrateIsClassicalRk4`. |
| Physics.Combine | src/Physics.js:49-64 | The 1-2-2-1 over 6 weighting of four equal increments is that increment, because the weights sum to one. |
| Physics.Integrate | src/Physics.js:26-65 | An RK4 step over no time returns the state unchanged. In a field that vanishes everywhere it keeps the velocity and moves the position by `vel * dt`. |
| Physics.Rk4Step | src/Physics.js:26-65 | With `dt = 0` it returns the input position and velocity. With `G * centralMass = 0` it returns the same velocity and position `pos + vel * dt`. |
| Physics.IntegrateIsClassicalRk4 | src/Physics.js:27-64 | The step equals classical RK4 in its textbook form: stages `f(y)`, `f(y + dt/2 f1)`, `f(y + dt/2 f2)`, `f(y + dt f3)`, combined as `y + dt/6 (f1 + 2 f2 + 2 f3 + f4)`. |
| Physics.Rk4StepIsClassicalRk4 | src/Physics.js:26-65 | The gravitational step is textbook RK4 in the field of the central mass. |
| Trails.NewTrail | src/Trail.js:10-13 | A new trail has the given cap and scale and no points. |
| Trails.ArcLength | src/Trail.js:44-50 | The arc length, the sum of the distances between neighbouring points, is never negative for a true norm. |
| Trails.ComputeArcLength | src/Trail.js:44-50 | The forward accumulation equals the arc length, defined independently by recursion from the newest end. It is 0 for fewer than two points. |
| Trails.ArcLengthDropFirst | src/Trail.js:59-62 | Dropping the oldest point removes exactly the edge between the two oldest points from the arc length. This is why the trim's running total stays exact. |
| Trails.ArcLengthAppend | src/Trail.js:44-55 | Appending a point adds exactly its distance to the previous newest point to the arc length, or nothing when the history was empty. |
| Trails.ArcLengthOfSuffix | src/Trail.js:44-50 | For a true norm the arc length is non-negative, and no suffix is longer than the whole history. |
| Trails.AddPoint | src/Trail.js:53-55 | The history grows by exactly one point at the newest end, equal to the argument. Older points, the cap and the scale are unchanged. |
| Trails.Capped | src/Trail.js:58-64 | The trim drops from the oldest end only. The result is a suffix of the input. It is non-empty when the input was. It is within the cap or is a single point. |
| Trails.CappedIsLongest | src/Trail.js:60-63 | The trim is minimal: each dropped point was dropped while the history still had more than one point and was over the cap. |
| Trails.CappedDropsOnlyOverCap | src/Trail.js:60-63 | Every prefix the trim drops, taken together: each dropped point started a history with more than one point that was over the cap. |
| Trails.CappedKeepsNewest | src/Trail.js:58-64 | The newest point of a non-empty history survives the trim. |
| Trails.TrimStep | src/Trail.js:60-63 | One round over the cap leaves the running total equal to the arc length of what remains and does not change the trim's outcome. This is the loop invariant. |
| Trails.CapTrail | src/Trail.js:58-64 | The running-total loop keeps exactly the points the reference trim `Capped` keeps. The result is within the cap or down to one point, and trimming it again changes nothing. |
| Trails.AlphaRamp | src/Trail.js:77 | Opacities lie in [0, 1] and never decrease by index. They start at 0 when there are at least two points and end at 1. |
| Trails.Render | src/Trail.js:68-77 | The buffers, built entry by entry, draw the points: point `i`, scaled, sits at entries `3i .. 3i+2` and has opacity `i/(n-1)`, or 1 for a single point. |
| Trails.Alpha | src/Trail.js:77 | The opacity of each point of a trail lies in [0, 1], and the newest point's is 1. |
| Trails.RendersUnique | src/Trail.js:68-77 | The points and the scale determine the buffers: two buffers that both draw the same points are equal. |
| Trails.UpdateGeometry | src/Trail.js:67-78 | The loop fills buffers that draw the points at the scale, equal to `Render`. The opacities lie in [0, 1], never decrease, and the last is 1. |
| Simulation.NewManager | src/SimulationManager.js:5-12 | Scale defaults to 1 and the time step to 3600 when left out. G and the central mass are taken as given. There are no bodies and no trails. |
| Simulation.AddBody | src/SimulationManager.js:18-20 | The body is appended at the end of the list, even if it is already listed. Other bodies' records, the trails and the settings are unchanged, and the manager stays consistent. |
| Simulation.SetTrail | src/SimulationManager.js:22-24 | The body's trail becomes the given one, and the trail follows that body's record. Every other trail, every other record, the list and the settings are unchanged. |
| Simulation.SetTrailReplaces | src/SimulationManager.js:22-24 | A second `setTrail` for the same body replaces the first: at most one trail per body. |
| Simulation.StepBody | src/SimulationManager.js:53-63 | The body named `Earth` is left unchanged. Every other body's position and velocity become the `rk4Step` result for its old state. Name, mass and radius are kept. |
| Simulation.RepeatKeeps | src/SimulationManager.js:52-63 | Any number of physics steps keeps a body's name and constants and never moves the central body. |
| Simulation.Advance | src/SimulationManager.js:52-63 | The physics pass over a list of bodies neither adds nor removes a body: every body stays reachable. What happens to each one is stated by `AdvanceCounts`. |
| Simulation.AdvanceCounts | src/SimulationManager.js:52-63 | After the pass, each body has been stepped exactly as many times as it appears in the list, wherever those entries are. |
| Simulation.AdvanceOrderIrrelevant | src/SimulationManager.js:52-63 | Two lists with the same entries in any order give the same result, because each body's new state depends only on its own prior state. |
| Simulation.AdvanceEffect | src/SimulationManager.js:52-63 | The central body and every unlisted body keep their records. A body listed once gets exactly one RK4 step. |
| Simulation.UpdatePhysics | src/SimulationManager.js:50-68 | The in-place loop equals the reference pass. The central body is unchanged, unlisted bodies are unchanged, and each body is stepped as often as it is listed. The list, the trails and the settings are unchanged. |
| Simulation.AdvanceTrail | src/SimulationManager.js:73-74 | After `addPoint` then `capTrail`, the trail ends at the body's position and keeps a suffix of the old history followed by that position. It is within the cap or is that single point. The trim is minimal: it drops nothing when the extended history already fits, and every dropped point started a history that was still over the cap. |
| Simulation.UpdateTrails | src/SimulationManager.js:70-77 | Each registered trail, and no other, gets one point and one trim, with its buffers rebuilt at the manager's scale. Bodies, list and settings are unchanged, and the manager stays consistent. |
| Simulation.UpdateTrailsEffect | src/SimulationManager.js:72-76 | After the update, each trail is exactly the minimal trim `Capped` of its old history plus its body's current position. So it ends at that position, keeps a suffix of the old history, and meets its cap or is that single point. Its buffers draw it at the manager's scale. |

## Left out

- Floating point: IEEE-754 rounding, `Float32Array` storage of the render buffers, and `Math.sqrt` inside `length` and `distanceTo`. Arithmetic is exact `real` and the length is an abstract parameter.
- Accuracy properties (energy conservation, orbit shape, return to the start after one revolution) are not modelled, because they need real analysis of the exact norm and are about floating-point runs.
- `start` and `animate` (src/SimulationManager.js:26-48) are not modelled. They cover frame scheduling through `requestAnimationFrame`, the `Earth` mesh rotation by `earthRotationRate`, and `sceneManager.render`. `earthRotationRate` is not part of the manager record, since only the rotation reads it.
- The `sceneManager` constructor argument is not modelled: it is a reference to an external renderer.
- Three.js calls are foreign library code and are not modelled. This covers the trail's BufferGeometry, ShaderMaterial and Line setup, the `setAttribute` and `needsUpdate` calls, and the copy of the scaled position into the body's mesh (src/SimulationManager.js:66).
- `src/Body.js`, `src/Utils.js`, `src/index.js` and `webpack.config.js` are not modelled. They hold mesh, label, texture and bootstrap code. A body is modelled as its name, mass, radius and SI state.
- Simulation.UpdateTrails assumes each `Trail` object is attached to at most one body. Trails are stored by value, one per body. The source does not stop `setTrail` giving one `Trail` object to two bodies (src/SimulationManager.js:22-24). In that case `updateTrails` appends both bodies' positions to the shared trail in the `Map`'s insertion order and trims it twice (src/SimulationManager.js:72-75); the model gives each body its own copy with one point. Under the one-owner assumption the entries are independent, so visiting them as one map rather than in insertion order changes nothing.
- Physics.Acceleration states the direction (towards the origin when `G * centralMass >= 0`, away from it when `G * centralMass <= 0`) and, through `AccelerationMagnitude`, the size of the result rather than its formula. The two together determine it when the norm is homogeneous.

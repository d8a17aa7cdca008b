/** The simulation manager: the registered bodies, the trail attached to each
    body, and the two per-frame updates: advancing every non-central body
    by one RK4 step, and appending each body's position to its trail before
    trimming the trail and rebuilding its render buffers.

    Bodies are mutable objects compared by identity in the source; here a
    `BodyId` stands for that identity and `objects` holds the current
    record of every body the manager can reach. */
module Simulation {
  import opened Vectors
  import opened Physics
  import opened Trails

  type BodyId = nat

  /** The part of a celestial body the manager reads or writes: its name,
      its physical constants and its state in SI units. */
  datatype Body = Body(name: string, mass: real, radius: real, simPosition: Vec3, simVelocity: Vec3)

  /** An option argument that may be left out, as a destructured parameter
      with a default value is. */
  datatype Option<T> = None | Some(value: T)

  /** The name of the central body, which the physics update never moves. */
  const CentralName: string := "Earth"

  /** The default SI-to-scene factor and the default time step (one hour,
      in seconds). */
  const DefaultScale: real := 1.0
  const DefaultTimeStep: real := 3600.0

  datatype SimulationManager = SimulationManager(
    scale: real,
    G: real,
    centralMass: real,
    dt: real,
    objects: map<BodyId, Body>,
    bodies: seq<BodyId>,
    trails: map<BodyId, Trail>)

  /** Every body the manager refers to, through its list or its trails, has
      a record. */
  predicate Valid(m: SimulationManager) {
    && (forall i :: 0 <= i < |m.bodies| ==> m.bodies[i] in m.objects)
    && m.trails.Keys <= m.objects.Keys
  }

  /** `id` and `body` may be passed as one object: either `id` is not known
      yet, or `body` is its current record. */
  predicate SameObject(m: SimulationManager, id: BodyId, body: Body) {
    id in m.objects ==> m.objects[id] == body
  }

  /** The constructor: scale and time step fall back to their defaults when
      left out, the physical constants are taken as given, and there are no
      bodies and no trails yet. */
  function NewManager(scale: Option<real>, G: real, centralMass: real, timeStep: Option<real>): (m: SimulationManager)
    ensures Valid(m)
    ensures m.bodies == [] && m.trails == map[] && m.objects == map[]
    ensures m.G == G && m.centralMass == centralMass
    ensures scale.None? ==> m.scale == 1.0
    ensures timeStep.None? ==> m.dt == 3600.0
    ensures scale.Some? ==> m.scale == scale.value
    ensures timeStep.Some? ==> m.dt == timeStep.value
  {
    SimulationManager(
      if scale.Some? then scale.value else DefaultScale,
      G, centralMass,
      if timeStep.Some? then timeStep.value else DefaultTimeStep,
      map[], [], map[])
  }

  /** `addBody`: the body is appended to the list (a body that is already
      listed is listed again) and nothing else changes. */
  function AddBody(m: SimulationManager, id: BodyId, body: Body): (r: SimulationManager)
    requires SameObject(m, id, body)
    ensures |r.bodies| == |m.bodies| + 1
    ensures r.bodies[..|m.bodies|] == m.bodies && r.bodies[|m.bodies|] == id
    ensures id in r.objects && r.objects[id] == body
    ensures r.objects.Keys == m.objects.Keys + {id}
    ensures forall other :: other in m.objects ==> r.objects[other] == m.objects[other]
    ensures r.trails == m.trails
    ensures r.scale == m.scale && r.G == m.G && r.centralMass == m.centralMass && r.dt == m.dt
    ensures Valid(m) ==> Valid(r)
  {
    m.(bodies := m.bodies + [id], objects := m.objects[id := body])
  }

  /** `setTrail`: the trail becomes the body's trail, replacing any earlier
      one; the body is not added to the physics list. */
  function SetTrail(m: SimulationManager, id: BodyId, body: Body, trail: Trail): (r: SimulationManager)
    requires SameObject(m, id, body)
    ensures id in r.trails && r.trails[id] == trail
    ensures r.trails.Keys == m.trails.Keys + {id}
    ensures forall other :: other in m.trails && other != id ==> r.trails[other] == m.trails[other]
    ensures r.objects.Keys == m.objects.Keys + {id} && r.objects[id] == body
    ensures forall other :: other in m.objects ==> r.objects[other] == m.objects[other]
    ensures r.bodies == m.bodies
    ensures r.scale == m.scale && r.G == m.G && r.centralMass == m.centralMass && r.dt == m.dt
    ensures Valid(m) ==> Valid(r)
  {
    m.(trails := m.trails[id := trail], objects := m.objects[id := body])
  }

  /** Setting a body's trail twice leaves only the second trail. */
  lemma SetTrailReplaces(m: SimulationManager, id: BodyId, body: Body, t1: Trail, t2: Trail)
    requires SameObject(m, id, body)
    ensures SetTrail(SetTrail(m, id, body, t1), id, body, t2) == SetTrail(m, id, body, t2)
  {
    var a := SetTrail(SetTrail(m, id, body, t1), id, body, t2);
    var b := SetTrail(m, id, body, t2);
    assert a.trails == b.trails;
    assert a.objects == b.objects;
  }

  /** One physics update of one body: the central body stays where it is,
      every other body advances by one RK4 step in the central field. Name
      and constants are kept; a step over no time changes nothing. */
  function StepBody(norm: Norm, m: SimulationManager, b: Body): (r: Body)
    ensures r.name == b.name && r.mass == b.mass && r.radius == b.radius
    ensures b.name == CentralName ==> r == b
    ensures m.dt == 0.0 ==> r == b
    ensures b.name != CentralName ==>
              State(r.simPosition, r.simVelocity)
              == Rk4Step(norm, b.simPosition, b.simVelocity, m.dt, m.G, m.centralMass)
  {
    if b.name == CentralName then b
    else
      var s := Rk4Step(norm, b.simPosition, b.simVelocity, m.dt, m.G, m.centralMass);
      b.(simPosition := s.pos, simVelocity := s.vel)
  }

  /** A per-body update, applied to each listed body in turn. */
  type Step = Body -> Body

  /** The physics update of one body under the manager's settings. */
  function Stepper(norm: Norm, m: SimulationManager): Step {
    b => StepBody(norm, m, b)
  }

  /** `n` applications of `step` to one body. */
  function Repeat(step: Step, n: nat, b: Body): Body
    decreases n
  {
    if n == 0 then b else Repeat(step, n - 1, step(b))
  }

  /** Repeated physics steps keep the name and constants, and never move
      the central body. */
  lemma {:induction false} RepeatKeeps(norm: Norm, m: SimulationManager, n: nat, b: Body)
    ensures var r := Repeat(Stepper(norm, m), n, b);
              r.name == b.name && r.mass == b.mass && r.radius == b.radius
    ensures b.name == CentralName ==> Repeat(Stepper(norm, m), n, b) == b
    decreases n
  {
    if n > 0 {
      RepeatKeeps(norm, m, n - 1, StepBody(norm, m, b));
    }
  }

  /** A pass over a list of bodies stated directly: the listed bodies are
      updated one after another, a body listed twice being updated twice. */
  function Advance(step: Step, objects: map<BodyId, Body>, ids: seq<BodyId>): (r: map<BodyId, Body>)
    requires forall i :: 0 <= i < |ids| ==> ids[i] in objects
    ensures r.Keys == objects.Keys
    decreases |ids|
  {
    if ids == [] then objects
    else
      var id := ids[0];
      Advance(step, objects[id := step(objects[id])], ids[1..])
  }

  /** Each body ends up updated exactly as many times as it is listed,
      wherever in the list those entries are. */
  lemma {:induction false} AdvanceCounts(step: Step, objects: map<BodyId, Body>, ids: seq<BodyId>, id: BodyId)
    requires forall i :: 0 <= i < |ids| ==> ids[i] in objects
    requires id in objects
    ensures Advance(step, objects, ids)[id] == Repeat(step, multiset(ids)[id], objects[id])
    decreases |ids|
  {
    if ids != [] {
      var h := ids[0];
      assert ids == [h] + ids[1..];
      assert multiset(ids) == multiset([h]) + multiset(ids[1..]);
      AdvanceCounts(step, objects[h := step(objects[h])], ids[1..], id);
    }
  }

  /** A pass does not depend on the order of the list, only on how often
      each body appears in it. */
  lemma AdvanceOrderIrrelevant(step: Step, objects: map<BodyId, Body>, ids1: seq<BodyId>, ids2: seq<BodyId>)
    requires forall i :: 0 <= i < |ids1| ==> ids1[i] in objects
    requires multiset(ids1) == multiset(ids2)
    ensures forall i :: 0 <= i < |ids2| ==> ids2[i] in objects
    ensures Advance(step, objects, ids1) == Advance(step, objects, ids2)
  {
    forall i | 0 <= i < |ids2|
      ensures ids2[i] in objects
    {
      assert ids2[i] in multiset(ids1);
    }
    forall id | id in objects
      ensures Advance(step, objects, ids1)[id] == Advance(step, objects, ids2)[id]
    {
      AdvanceCounts(step, objects, ids1, id);
      AdvanceCounts(step, objects, ids2, id);
    }
  }

  /** What the physics pass does to one body: the central body and any body
      that is not listed keep their records, and a body listed once is
      stepped once. */
  lemma AdvanceEffect(norm: Norm, m: SimulationManager, id: BodyId)
    requires Valid(m)
    requires id in m.objects
    ensures var r := Advance(Stepper(norm, m), m.objects, m.bodies)[id];
            && r == Repeat(Stepper(norm, m), multiset(m.bodies)[id], m.objects[id])
            && (m.objects[id].name == CentralName ==> r == m.objects[id])
            && (id !in m.bodies ==> r == m.objects[id])
            && (multiset(m.bodies)[id] == 1 ==> r == StepBody(norm, m, m.objects[id]))
  {
    AdvanceCounts(Stepper(norm, m), m.objects, m.bodies, id);
    RepeatKeeps(norm, m, multiset(m.bodies)[id], m.objects[id]);
  }

  /** `updatePhysics`, as the source performs it: one pass over the list
      that steps each body in place. Each body is stepped as many times as
      it is listed; the central body, and every body that is not listed,
      keeps its record; a body listed once gets exactly one RK4 step. The
      list, the trails and the settings are unchanged. */
  method UpdatePhysics(norm: Norm, m: SimulationManager) returns (r: SimulationManager)
    requires Valid(m)
    ensures r == m.(objects := Advance(Stepper(norm, m), m.objects, m.bodies))
    ensures Valid(r) && r.objects.Keys == m.objects.Keys
    ensures forall id :: id in m.objects ==>
              r.objects[id] == Repeat(Stepper(norm, m), multiset(m.bodies)[id], m.objects[id])
    ensures forall id :: id in m.objects && m.objects[id].name == CentralName ==>
              r.objects[id] == m.objects[id]
    ensures forall id :: id in m.objects && id !in m.bodies ==> r.objects[id] == m.objects[id]
    ensures forall id :: id in m.objects && multiset(m.bodies)[id] == 1 ==>
              r.objects[id] == StepBody(norm, m, m.objects[id])
  {
    var objects := m.objects;
    for i := 0 to |m.bodies|
      invariant objects.Keys == m.objects.Keys
      invariant Advance(Stepper(norm, m), objects, m.bodies[i..]) == Advance(Stepper(norm, m), m.objects, m.bodies)
    {
      var id := m.bodies[i];
      assert m.bodies[i..][0] == id && m.bodies[i..][1..] == m.bodies[i + 1..];
      objects := objects[id := StepBody(norm, m, objects[id])];
    }
    assert m.bodies[|m.bodies|..] == [];
    r := m.(objects := objects);
    forall id | id in m.objects {
      AdvanceEffect(norm, m, id);
    }
  }

  /** One trail update for a body at `pos` (`addPoint`, then `capTrail`):
      the newest point is `pos`; the points kept are a suffix of the old
      history followed by `pos`; the trail is within its cap or down to
      that one point; nothing is dropped when the extended history
      already fits; and every point dropped had to go, because the
      history starting there was still over the cap. */
  function AdvanceTrail(norm: Norm, t: Trail, pos: Vec3): (r: Trail)
    ensures r.orbitCircumference == t.orbitCircumference && r.scale == t.scale
    ensures var n := |r.trailPoints|;
              1 <= n <= |t.trailPoints| + 1 && r.trailPoints[n - 1] == pos
    ensures r.trailPoints == (t.trailPoints + [pos])[|t.trailPoints| + 1 - |r.trailPoints|..]
    ensures WithinCap(norm, r.trailPoints, t.orbitCircumference)
    ensures WithinCap(norm, t.trailPoints + [pos], t.orbitCircumference) ==>
              r.trailPoints == t.trailPoints + [pos]
    ensures forall j :: 0 <= j < |t.trailPoints| + 1 - |r.trailPoints| ==>
              !WithinCap(norm, (t.trailPoints + [pos])[j..], t.orbitCircumference)
  {
    var added := AddPoint(t, pos);
    var cap := t.orbitCircumference;
    CappedKeepsNewest(norm, added.trailPoints, cap);
    CappedDropsOnlyOverCap(norm, added.trailPoints, cap);
    added.(trailPoints := Capped(norm, added.trailPoints, cap))
  }

  /** The result of the trail update: the manager with its trails advanced,
      and the render buffers of every trail. */
  datatype TrailUpdate = TrailUpdate(manager: SimulationManager, geometry: map<BodyId, Geometry>)

  /** `updateTrails`: every registered trail takes its body's current
      position and is trimmed (`AdvanceTrail`), and its render buffers are
      rebuilt from the trimmed points at the manager's scale, not the
      trail's own. The entries are independent of one another, so the order
      of the pass does not matter. Bodies, list and settings are unchanged,
      and no trail is added or removed. */
  function UpdateTrails(norm: Norm, m: SimulationManager): (r: TrailUpdate)
    requires Valid(m)
    ensures Valid(r.manager)
    ensures r.manager == m.(trails := r.manager.trails)
    ensures r.manager.trails.Keys == m.trails.Keys && r.geometry.Keys == m.trails.Keys
    ensures forall id :: id in m.trails ==>
              r.manager.trails[id] == AdvanceTrail(norm, m.trails[id], m.objects[id].simPosition)
    ensures forall id :: id in m.trails ==>
              r.geometry[id] == Render(r.manager.trails[id].trailPoints, m.scale)
  {
    var trails := map id | id in m.trails :: AdvanceTrail(norm, m.trails[id], m.objects[id].simPosition);
    assert trails.Keys == m.trails.Keys;
    var geometry := map id | id in trails :: Render(trails[id].trailPoints, m.scale);
    assert geometry.Keys == m.trails.Keys;
    TrailUpdate(m.(trails := trails), geometry)
  }

  /** What the trail update does to one body's trail: it ends at the body's
      current position, keeps a suffix of the old history, is within its
      cap or down to that one point, and its buffers draw it at the
      manager's scale. */
  lemma UpdateTrailsEffect(norm: Norm, m: SimulationManager, id: BodyId)
    requires Valid(m)
    requires id in m.trails
    ensures var t := m.trails[id];
            var pts := UpdateTrails(norm, m).manager.trails[id].trailPoints;
            && |pts| >= 1 && pts[|pts| - 1] == m.objects[id].simPosition
            && pts == (t.trailPoints + [m.objects[id].simPosition])[|t.trailPoints| + 1 - |pts|..]
            && WithinCap(norm, pts, t.orbitCircumference)
            && pts == Capped(norm, t.trailPoints + [m.objects[id].simPosition], t.orbitCircumference)
            && Renders(UpdateTrails(norm, m).geometry[id], pts, m.scale)
  {
  }
}

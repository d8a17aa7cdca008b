/** The integrator: gravitational acceleration towards a fixed central mass at
    the origin, and one classical fourth-order Runge-Kutta step of a body's
    (position, velocity) pair. Every function is pure; the source clones its
    vector arguments before mutating them, which in this value-typed model
    holds by construction. */
module Physics {
  import opened Vectors

  /** A body's dynamic state. */
  datatype State = State(pos: Vec3, vel: Vec3)

  /** One Runge-Kutta increment over a whole step: `dp` is the change of
      position (velocity times dt), `dv` the change of velocity
      (acceleration times dt). */
  datatype Increment = Increment(dp: Vec3, dv: Vec3)

  /** The four increments of one RK4 step. */
  datatype Quad = Quad(k1: Increment, k2: Increment, k3: Increment, k4: Increment)

  /** Acceleration of a body at `pos` towards a mass `centralMass` at the
      origin: zero when the length of `pos` is zero, otherwise `pos` scaled
      by `-G * centralMass / r^3` with `r` that length. The result is
      parallel to `pos`; for an attracting mass it points back towards the
      origin, for a repelling one (`G * centralMass < 0`) away from it. */
  function Acceleration(norm: Norm, pos: Vec3, G: real, centralMass: real): (a: Vec3)
    ensures norm(pos) == 0.0 ==> a == Zero
    ensures IsNorm(norm) && pos == Zero ==> a == Zero
    ensures G * centralMass == 0.0 ==> a == Zero
    ensures Cross(a, pos) == Zero
    ensures IsNorm(norm) && G * centralMass >= 0.0 ==> Dot(a, pos) <= 0.0
    ensures IsNorm(norm) && G * centralMass <= 0.0 ==> Dot(a, pos) >= 0.0
  {
    var r := norm(pos);
    if r == 0.0 then Zero
    else
      var c := -G * centralMass / (r * r * r);
      CentralScaling(pos, c);
      assert IsNorm(norm) ==> (G * centralMass >= 0.0 ==> c <= 0.0) && (G * centralMass <= 0.0 ==> c >= 0.0) by {
        if IsNorm(norm) {
          assert r > 0.0;
          assert r * r * r > 0.0 by { assert r * r > 0.0; }
        }
      }
      Scale(pos, c)
  }

  /** A multiple of `p` is parallel to `p`; a non-positive multiple points
      back towards the origin and a non-negative one away from it. */
  lemma CentralScaling(p: Vec3, c: real)
    ensures Cross(Scale(p, c), p) == Zero
    ensures c <= 0.0 ==> Dot(Scale(p, c), p) <= 0.0
    ensures c >= 0.0 ==> Dot(Scale(p, c), p) >= 0.0
  {
    assert Dot(Scale(p, c), p) == c * Dot(p, p);
    assert Dot(p, p) >= 0.0 by {
      assert p.x * p.x >= 0.0 && p.y * p.y >= 0.0 && p.z * p.z >= 0.0;
    }
  }

  /** The magnitude of the acceleration away from the origin is
      `|G * centralMass| / r^2`, stated here multiplied out:
      magnitude times `r^2` is `|G * centralMass|`. It needs a norm that
      scales with its argument. */
  lemma AccelerationMagnitude(norm: Norm, pos: Vec3, G: real, centralMass: real)
    requires IsNorm(norm) && IsHomogeneous(norm)
    requires pos != Zero
    ensures norm(Acceleration(norm, pos, G, centralMass)) * (norm(pos) * norm(pos))
         == Abs(G * centralMass)
  {
    var r := norm(pos);
    assert r > 0.0;
    var r3 := r * r * r;
    assert r3 > 0.0 by { assert r * r > 0.0; }
    var c := -G * centralMass / r3;
    assert norm(Scale(pos, c)) == Abs(c) * r;
    assert Abs(c) * r3 == Abs(G * centralMass) by {
      assert c * r3 == -G * centralMass;
    }
  }

  /** An acceleration field: the acceleration a body feels at each
      position. */
  type Field = Vec3 -> Vec3

  /** The field of the central mass. */
  function Gravity(norm: Norm, G: real, centralMass: real): Field {
    p => Acceleration(norm, p, G, centralMass)
  }

  /** The Runge-Kutta increment evaluated at the trial state `s`:
      velocity and acceleration at `s`, each multiplied by `dt`. */
  function Stage(field: Field, s: State, dt: real): Increment {
    Increment(Scale(s.vel, dt), Scale(field(s.pos), dt))
  }

  /** The trial state `s + k * h` (position and velocity offset together). */
  function Offset(s: State, k: Increment, h: real): State {
    State(Add(s.pos, Scale(k.dp, h)), Add(s.vel, Scale(k.dv, h)))
  }

  /** `(a + 2b + 2c + d) * (1/6)`: the 1-2-2-1 weighting of the stages. */
  function Weighted(a: Vec3, b: Vec3, c: Vec3, d: Vec3): Vec3 {
    Scale(Add(Add(Add(a, Scale(b, 2.0)), Scale(c, 2.0)), d), 1.0 / 6.0)
  }

  /** The four RK4 stages from `s`: at `s`, at `s + k1/2`, at `s + k2/2`
      and at `s + k3`. Over no time they all vanish; in a field that
      vanishes everywhere they all move the position by `vel * dt`. */
  function Stages(field: Field, s: State, dt: real): (q: Quad)
    ensures dt == 0.0 ==> q.k1 == q.k2 == q.k3 == q.k4 == Increment(Zero, Zero)
    ensures (forall p :: field(p) == Zero) ==>
              q.k1 == q.k2 == q.k3 == q.k4 == Increment(Scale(s.vel, dt), Zero)
  {
    var k1 := Stage(field, s, dt);
    var k2 := Stage(field, Offset(s, k1, 0.5), dt);
    var k3 := Stage(field, Offset(s, k2, 0.5), dt);
    var k4 := Stage(field, State(Add(s.pos, k3.dp), Add(s.vel, k3.dv)), dt);
    StagesOverNoTime(field, s, dt, k1, k2, k3, k4);
    StagesInEmptyField(field, s, dt, k1, k2, k3, k4);
    Quad(k1, k2, k3, k4)
  }

  lemma StagesOverNoTime(field: Field, s: State, dt: real,
                         k1: Increment, k2: Increment, k3: Increment, k4: Increment)
    requires k1 == Stage(field, s, dt)
    requires k2 == Stage(field, Offset(s, k1, 0.5), dt)
    requires k3 == Stage(field, Offset(s, k2, 0.5), dt)
    requires k4 == Stage(field, State(Add(s.pos, k3.dp), Add(s.vel, k3.dv)), dt)
    ensures dt == 0.0 ==> k1 == k2 == k3 == k4 == Increment(Zero, Zero)
  {
  }

  lemma StagesInEmptyField(field: Field, s: State, dt: real,
                           k1: Increment, k2: Increment, k3: Increment, k4: Increment)
    requires k1 == Stage(field, s, dt)
    requires k2 == Stage(field, Offset(s, k1, 0.5), dt)
    requires k3 == Stage(field, Offset(s, k2, 0.5), dt)
    requires k4 == Stage(field, State(Add(s.pos, k3.dp), Add(s.vel, k3.dv)), dt)
    ensures (forall p :: field(p) == Zero) ==>
              k1 == k2 == k3 == k4 == Increment(Scale(s.vel, dt), Zero)
  {
    if forall p :: field(p) == Zero {
      StageInEmptyField(field, s, dt);
      OffsetByPositionOnly(s, k1, 0.5);
      StageInEmptyField(field, Offset(s, k1, 0.5), dt);
      OffsetByPositionOnly(s, k2, 0.5);
      StageInEmptyField(field, Offset(s, k2, 0.5), dt);
      StageInEmptyField(field, State(Add(s.pos, k3.dp), Add(s.vel, k3.dv)), dt);
    }
  }

  lemma StageInEmptyField(field: Field, t: State, dt: real)
    requires forall p :: field(p) == Zero
    ensures Stage(field, t, dt) == Increment(Scale(t.vel, dt), Zero)
  {
  }

  lemma OffsetByPositionOnly(s: State, k: Increment, h: real)
    requires k.dv == Zero
    ensures Offset(s, k, h).vel == s.vel
  {
  }

  /** Moves `s` by the weighted mean of the four increments; four equal
      increments move it by exactly that increment. */
  function Combine(s: State, k1: Increment, k2: Increment, k3: Increment, k4: Increment): (r: State)
    ensures k1 == k2 == k3 == k4 ==> r == State(Add(s.pos, k1.dp), Add(s.vel, k1.dv))
  {
    WeightsSumToOne(k1.dp);
    WeightsSumToOne(k1.dv);
    State(Add(s.pos, Weighted(k1.dp, k2.dp, k3.dp, k4.dp)),
          Add(s.vel, Weighted(k1.dv, k2.dv, k3.dv, k4.dv)))
  }

  /** The weights 1, 2, 2, 1 over 6 sum to one: four equal increments
      combine to that increment. */
  lemma WeightsSumToOne(k: Vec3)
    ensures Weighted(k, k, k, k) == k
  {
  }

  /** One RK4 step of length `dt` in a field. With no time passing nothing
      moves; in a field that vanishes everywhere the body moves uniformly
      along its velocity. */
  function Integrate(field: Field, pos: Vec3, vel: Vec3, dt: real): (r: State)
    ensures dt == 0.0 ==> r == State(pos, vel)
    ensures (forall p :: field(p) == Zero) ==> r == State(Add(pos, Scale(vel, dt)), vel)
  {
    var k := Stages(field, State(pos, vel), dt);
    AddZero(pos);
    AddZero(vel);
    Combine(State(pos, vel), k.k1, k.k2, k.k3, k.k4)
  }

  /** One RK4 step of a body in the field of the central mass. A step over
      no time changes nothing; without attraction (`G * centralMass == 0`)
      the velocity is kept and the position advances by `vel * dt`. */
  function Rk4Step(norm: Norm, pos: Vec3, vel: Vec3, dt: real, G: real, centralMass: real): (r: State)
    ensures dt == 0.0 ==> r == State(pos, vel)
    ensures G * centralMass == 0.0 ==> r == State(Add(pos, Scale(vel, dt)), vel)
  {
    Integrate(Gravity(norm, G, centralMass), pos, vel, dt)
  }

  /** The time derivative of the state: velocity, and the field at the
      position. */
  function Derivative(field: Field, s: State): State {
    State(s.vel, field(s.pos))
  }

  /** `s + h * d` for a state `s` and a derivative `d`. */
  function Euler(s: State, d: State, h: real): State {
    State(Add(s.pos, Scale(d.pos, h)), Add(s.vel, Scale(d.vel, h)))
  }

  /** Classical RK4 for `y' = f(y)` written as in textbooks, with the step
      length outside the stages:
      `y + dt/6 * (f1 + 2 f2 + 2 f3 + f4)` where `f1 = f(y)`,
      `f2 = f(y + dt/2 f1)`, `f3 = f(y + dt/2 f2)`, `f4 = f(y + dt f3)`. */
  function TextbookRk4(field: Field, y: State, dt: real): State {
    var f1 := Derivative(field, y);
    var f2 := Derivative(field, Euler(y, f1, dt / 2.0));
    var f3 := Derivative(field, Euler(y, f2, dt / 2.0));
    var f4 := Derivative(field, Euler(y, f3, dt));
    State(Add(y.pos, Scale(Add(Add(Add(f1.pos, Scale(f2.pos, 2.0)), Scale(f3.pos, 2.0)), f4.pos), dt / 6.0)),
          Add(y.vel, Scale(Add(Add(Add(f1.vel, Scale(f2.vel, 2.0)), Scale(f3.vel, 2.0)), f4.vel), dt / 6.0)))
  }

  /** The step computes exactly the classical fourth-order Runge-Kutta
      method: its stages are the textbook derivatives multiplied by `dt`,
      taken at the same trial states, and combined with the same weights. */
  lemma IntegrateIsClassicalRk4(field: Field, pos: Vec3, vel: Vec3, dt: real)
    ensures Integrate(field, pos, vel, dt) == TextbookRk4(field, State(pos, vel), dt)
  {
    var s := State(pos, vel);
    var k1 := Stage(field, s, dt);
    var f1 := Derivative(field, s);
    HalfStep(s, k1, f1, dt);
    var t2 := Offset(s, k1, 0.5);
    var k2 := Stage(field, t2, dt);
    var f2 := Derivative(field, t2);
    HalfStep(s, k2, f2, dt);
    var t3 := Offset(s, k2, 0.5);
    var k3 := Stage(field, t3, dt);
    var f3 := Derivative(field, t3);
    var t4 := State(Add(pos, k3.dp), Add(vel, k3.dv));
    assert t4 == Euler(s, f3, dt);
    var k4 := Stage(field, t4, dt);
    var f4 := Derivative(field, t4);
    assert Stages(field, s, dt) == Quad(k1, k2, k3, k4);
    WeightedOfScaled(f1.pos, f2.pos, f3.pos, f4.pos, dt);
    WeightedOfScaled(f1.vel, f2.vel, f3.vel, f4.vel, dt);
  }

  /** The gravitational step is classical RK4 in the central field. */
  lemma Rk4StepIsClassicalRk4(norm: Norm, pos: Vec3, vel: Vec3, dt: real, G: real, centralMass: real)
    ensures Rk4Step(norm, pos, vel, dt, G, centralMass)
         == TextbookRk4(Gravity(norm, G, centralMass), State(pos, vel), dt)
  {
    IntegrateIsClassicalRk4(Gravity(norm, G, centralMass), pos, vel, dt);
  }

  lemma HalfStep(s: State, k: Increment, f: State, dt: real)
    requires k == Increment(Scale(f.pos, dt), Scale(f.vel, dt))
    ensures Offset(s, k, 0.5) == Euler(s, f, dt / 2.0)
  {
  }

  /** Weighting increments that were each multiplied by `dt` is the same as
      taking `a + 2b + 2c + d` of the derivatives and multiplying by
      `dt / 6`. */
  lemma WeightedOfScaled(a: Vec3, b: Vec3, c: Vec3, d: Vec3, dt: real)
    ensures Weighted(Scale(a, dt), Scale(b, dt), Scale(c, dt), Scale(d, dt))
         == Scale(Add(Add(Add(a, Scale(b, 2.0)), Scale(c, 2.0)), d), dt / 6.0)
  {
  }
}

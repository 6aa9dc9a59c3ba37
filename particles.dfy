/** The point mass of src/classes/Particle.cpp: a force accumulator that one
    semi-implicit Euler step consumes and clears.

    `ParticleState` is the value of a particle's four fields; `AddForceTo` and
    `Integrate` say what `addForce` and `update` do to that value. The class
    `Particle` performs the same two operations in place, field by field, and
    its methods are proved to agree with the two functions. */
module Particles {
  import opened Vectors

  datatype ParticleState = ParticleState(mass: real, position: Vec3, velocity: Vec3, forces: Vec3)

  /** What `addForce(f)` makes of a particle. */
  function AddForceTo(p: ParticleState, f: Vec3): ParticleState {
    p.(forces := Add(p.forces, f))
  }

  /** What `update(dt)` makes of a particle: the velocity takes the
      acceleration `forces / mass`, the position takes the NEW velocity, and
      the accumulator is cleared. */
  function Integrate(p: ParticleState, dt: real): ParticleState
    requires p.mass != 0.0
  {
    var velocity := Add(p.velocity, Scale(dt, Div(p.forces, p.mass)));
    ParticleState(p.mass, Add(p.position, Scale(dt, velocity)), velocity, Zero)
  }

  /** `addForce` called once per element of `fs`, first element first. */
  function AddForces(p: ParticleState, fs: seq<Vec3>): ParticleState
    decreases |fs|
  {
    if fs == [] then p else AddForces(AddForceTo(p, fs[0]), fs[1..])
  }

  /** The componentwise sum of a list of forces. */
  function Sum(fs: seq<Vec3>): Vec3
    decreases |fs|
  {
    if fs == [] then Zero else Add(fs[0], Sum(fs[1..]))
  }

  /** Two `addForce` calls give the same particle in either order. */
  lemma AddForceCommutes(p: ParticleState, f: Vec3, g: Vec3)
    ensures AddForceTo(AddForceTo(p, f), g) == AddForceTo(AddForceTo(p, g), f)
    ensures AddForceTo(p, f).mass == p.mass && AddForceTo(p, f).position == p.position
    ensures AddForceTo(p, f).velocity == p.velocity
  {
  }

  /** Any run of `addForce` calls adds exactly the sum of its arguments to the
      accumulator and touches nothing else. */
  lemma {:induction false} AddForcesIsSum(p: ParticleState, fs: seq<Vec3>)
    ensures AddForces(p, fs) == AddForceTo(p, Sum(fs))
    decreases |fs|
  {
    if fs != [] {
      AddForcesIsSum(AddForceTo(p, fs[0]), fs[1..]);
    }
  }

  /** However many forces were added, `update` leaves a zero accumulator and
      the mass it found. */
  lemma IntegrateClearsForces(p: ParticleState, fs: seq<Vec3>, dt: real)
    requires p.mass != 0.0
    ensures AddForces(p, fs).mass == p.mass
    ensures Integrate(AddForces(p, fs), dt).forces == Zero
    ensures Integrate(AddForces(p, fs), dt).mass == p.mass
  {
    AddForcesIsSum(p, fs);
  }

  /** The step written out: `v' = v + (F/m) dt` and `x' = x + v dt + (F/m) dt²`.
      The `dt²` term is what using the new velocity adds; forward Euler
      (`x' = x + v dt`) would not have it. */
  lemma IntegrateIsSemiImplicit(p: ParticleState, dt: real)
    requires p.mass != 0.0
    ensures Integrate(p, dt).velocity == Add(p.velocity, Scale(dt, Div(p.forces, p.mass)))
    ensures Integrate(p, dt).position
         == Add(Add(p.position, Scale(dt, p.velocity)), Scale(dt * dt, Div(p.forces, p.mass)))
  {
    var a := Div(p.forces, p.mass);
    assert dt * (p.velocity.x + dt * a.x) == dt * p.velocity.x + (dt * dt) * a.x;
    assert dt * (p.velocity.y + dt * a.y) == dt * p.velocity.y + (dt * dt) * a.y;
    assert dt * (p.velocity.z + dt * a.z) == dt * p.velocity.z + (dt * dt) * a.z;
  }

  /** From rest with force `F`: velocity `F/m·dt`, position `F/m·dt²`. */
  lemma IntegrateFromRest(m: real, f: Vec3, dt: real)
    requires m != 0.0
    ensures Integrate(ParticleState(m, Zero, Zero, f), dt).velocity == Scale(dt, Div(f, m))
    ensures Integrate(ParticleState(m, Zero, Zero, f), dt).position == Scale(dt * dt, Div(f, m))
  {
    IntegrateIsSemiImplicit(ParticleState(m, Zero, Zero, f), dt);
  }

  /** The C++ class `Particle`, whose methods update its fields in place. */
  class Particle {
    var mass: real
    var position: Vec3
    var velocity: Vec3
    var forces: Vec3

    function State(): ParticleState
      reads this
    {
      ParticleState(mass, position, velocity, forces)
    }

    /** Stores its arguments as given; the mass is not checked. */
    constructor (m: real, x: Vec3, v: Vec3, f: Vec3)
      ensures State() == ParticleState(m, x, v, f)
    {
      mass := m;
      position := x;
      velocity := v;
      forces := f;
    }

    method AddForce(forceIn: Vec3)
      modifies this
      ensures State() == AddForceTo(old(State()), forceIn)
    {
      forces := forces.(x := forces.x + forceIn.x);
      forces := forces.(y := forces.y + forceIn.y);
      forces := forces.(z := forces.z + forceIn.z);
    }

    /** Needs a non-zero mass: it divides by it. */
    method Update(dt: real)
      requires mass != 0.0
      modifies this
      ensures State() == Integrate(old(State()), dt)
    {
      var accel := Div(forces, mass);
      velocity := Add(velocity, Scale(dt, accel));
      position := Add(position, Scale(dt, velocity));
      forces := Zero;
    }
  }
}

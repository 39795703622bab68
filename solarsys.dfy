/** The engine as the program has it: a `SolarSys` object holding a list of
    `Planet` objects whose position, velocity and diagnostic fields are updated
    in place. Each method is proved against the value-level functions of
    module Physics. */
module SolarSysClass {
  import opened Vectors
  import opened Physics

  /** A body: `Planet` when `isSun` is false, `Sun` when it is true. A sun
      differs only in that `update_position` leaves it where it is. */
  class Planet {
    const sys: SolarSys
    const mass: real
    const isSun: bool
    var position: Vec
    var velocity: Vec
    var angMoment: Vec
    var totEnergy: real
    var kineticEnergy: real
    var potEnergy: real

    /** The kinematic state of this body. */
    function Value(): Body
      reads this
    {
      Body(mass, position, velocity, isSun)
    }

    /** The diagnostic fields of this body. */
    function Diag(): Diagnostics
      reads this
    {
      Diagnostics(angMoment, kineticEnergy, potEnergy, totEnergy)
    }

    /** `Planet(sys, mass, position, velocity)`: a planet appends itself to
        the end of its system's list and starts with zero diagnostics. */
    constructor (sys: SolarSys, mass: real, position: Vec := Zero, velocity: Vec := Zero)
      requires sys.Valid()
      modifies sys
      ensures sys.Valid()
      ensures this.sys == sys && !isSun
      ensures Value() == Body(mass, position, velocity, false)
      ensures Diag() == NoDiagnostics
      ensures sys.planets == old(sys.planets) + [this]
    {
      this.sys := sys;
      this.mass := mass;
      this.isSun := false;
      this.velocity := velocity;
      this.position := position;
      new;
      sys.AddPlanet(this);
      angMoment := Zero;
      totEnergy := 0.0;
      kineticEnergy := 0.0;
      potEnergy := 0.0;
    }

    /** `Sun(sys, mass = 1000, position, velocity)`: the same, for a sun. */
    constructor Sun(sys: SolarSys, mass: real := 1000.0, position: Vec := Zero, velocity: Vec := Zero)
      requires sys.Valid()
      modifies sys
      ensures sys.Valid()
      ensures this.sys == sys && isSun
      ensures Value() == Body(mass, position, velocity, true)
      ensures Diag() == NoDiagnostics
      ensures sys.planets == old(sys.planets) + [this]
    {
      this.sys := sys;
      this.mass := mass;
      this.isSun := true;
      this.velocity := velocity;
      this.position := position;
      angMoment := Zero;
      totEnergy := 0.0;
      kineticEnergy := 0.0;
      potEnergy := 0.0;
      new;
      sys.AddPlanet(this);
    }

    /** `update_position(dT)`: a planet moves by `velocity * dT`; a sun
        does not move. */
    method UpdatePosition(dT: real)
      modifies this`position
      ensures Value() == Moved(old(Value()), dT)
    {
      if !isSun {
        position := Add(position, Scale(velocity, dT));
      }
    }

    /** `gravity(other, dT)`: only this body's velocity changes, by the kick
        `other` gives it; `other` is read, never written. */
    method Gravity(other: Planet, dT: real, norm: Vec -> real)
      requires Distance(position, other.position, norm) != 0.0
      modifies this`velocity
      ensures Value() == Physics.Gravity(old(Value()), old(other.Value()), dT, norm)
    {
      var relativePos := Sub(other.position, position);
      var distance := norm(relativePos);
      var direction := Div(relativePos, distance);
      var accSelf := Scale(direction, other.mass / distance / distance);
      velocity := Add(velocity, Scale(accSelf, dT));
    }
  }

  /** The container of all bodies, with the integrator name (the `method`
      attribute) and the time increment fixed at construction. */
  class SolarSys {
    const integrator: string
    const deltaT: real
    var planets: seq<Planet>

    /** The list holds each body once, and every body in it belongs to this
        system. */
    ghost predicate Owned()
      reads this
    {
      (forall i, j :: 0 <= i < j < |planets| ==> planets[i] != planets[j]) &&
      (forall i :: 0 <= i < |planets| ==> planets[i].sys == this)
    }

    /** `calc_qts` skips suns, so their diagnostics keep the zeros they were
        built with. */
    ghost predicate SunsUndiagnosed()
      reads this, planets
    {
      forall i :: 0 <= i < |planets| && planets[i].isSun ==> planets[i].Diag() == NoDiagnostics
    }

    ghost predicate Valid()
      reads this, planets
    {
      Owned() && SunsUndiagnosed()
    }

    /** The kinematic state of every body, in list order. */
    function State(): seq<Body>
      reads this, planets
    {
      seq(|planets|, i requires 0 <= i < |planets| reads this, planets => planets[i].Value())
    }

    /** The diagnostic fields of every body, in list order. */
    function Diags(): seq<Diagnostics>
      reads this, planets
    {
      seq(|planets|, i requires 0 <= i < |planets| reads this, planets => planets[i].Diag())
    }

    /** `SolarSys(method, delta_t)`: an empty system. */
    constructor (integrator: string, deltaT: real)
      ensures Valid()
      ensures this.integrator == integrator && this.deltaT == deltaT && planets == []
    {
      this.integrator := integrator;
      this.deltaT := deltaT;
      planets := [];
    }

    /** `add_planet(planet)`: append to the end of the list. */
    method AddPlanet(planet: Planet)
      modifies this`planets
      ensures planets == old(planets) + [planet]
    {
      planets := planets + [planet];
    }

    /** The loop `for planet in self.planets: planet.update_position(dT)` that
        `step` and `step_no_planet_interact` run once or twice. */
    method UpdatePositions(dT: real)
      requires Valid()
      modifies planets
      ensures Valid()
      ensures State() == Drift(old(State()), dT)
      ensures Diags() == old(Diags())
    {
      ghost var before := State();
      for i := 0 to |planets|
        invariant forall k :: 0 <= k < i ==> planets[k].Value() == Moved(before[k], dT)
        invariant forall k :: i <= k < |planets| ==> planets[k].Value() == before[k]
        invariant forall k :: 0 <= k < |planets| ==> planets[k].Diag() == old(planets[k].Diag())
      {
        planets[i].UpdatePosition(dT);
      }
      assert State() == Drift(before, dT);
    }

    /** `planet_interaction(dT)`: for every ordered pair `i != j` the body at
        `i` is kicked by the body at `j`. The loop ends in the state the
        simultaneous update `FullInteraction` gives. */
    method PlanetInteraction(dT: real, norm: Vec -> real)
      requires Valid() && Separated(State(), norm)
      modifies planets
      ensures Valid()
      ensures State() == FullInteraction(old(State()), dT, norm)
      ensures Diags() == old(Diags())
    {
      ghost var before := State();
      var n := |planets|;
      for i := 0 to n
        invariant forall k :: 0 <= k < n ==>
                    planets[k].position == before[k].position &&
                    planets[k].Diag() == old(planets[k].Diag()) &&
                    planets[k].velocity == if k < i then KickedVelocity(before, k, n, dT, norm) else before[k].velocity
      {
        KickedVelocityFrame(State(), before, i, n, dT, norm);
        PullOn(i, planets[i], dT, norm);
      }
      assert State() == FullInteraction(before, dT, norm);
    }

    /** The inner loop of `planet_interaction`: the body at `i` is kicked by
        every other body in list order; nothing else changes. */
    method PullOn(i: nat, first: Planet, dT: real, norm: Vec -> real)
      requires Owned() && i < |planets| && planets[i] == first && Separated(State(), norm)
      modifies first`velocity
      ensures first.velocity == KickedVelocity(old(State()), i, |planets|, dT, norm)
    {
      ghost var before := State();
      for j := 0 to |planets|
        invariant forall k :: 0 <= k < |planets| && k != i ==> planets[k].velocity == before[k].velocity
        invariant first.velocity == KickedVelocity(before, i, j, dT, norm)
      {
        if i != j {
          first.Gravity(planets[j], dT, norm);
        }
      }
    }

    /** The first loop of `interaction_sun_only`: the index of the last sun in
        the list, or 0 when there is none. */
    method FindSunIndex() returns (sunIndex: nat)
      ensures |planets| > 0 ==> sunIndex < |planets|
      ensures (exists i :: 0 <= i < |planets| && planets[i].isSun) ==>
                planets[sunIndex].isSun &&
                forall j :: sunIndex < j < |planets| ==> !planets[j].isSun
      ensures (forall i :: 0 <= i < |planets| ==> !planets[i].isSun) ==> sunIndex == 0
    {
      sunIndex := 0;
      for i := 0 to |planets|
        invariant i > 0 ==> sunIndex < i
        invariant (exists k :: 0 <= k < i && planets[k].isSun) ==>
                    planets[sunIndex].isSun && forall j :: sunIndex < j < i ==> !planets[j].isSun
        invariant (forall k :: 0 <= k < i ==> !planets[k].isSun) ==> sunIndex == 0
      {
        if planets[i].isSun {
          sunIndex := i;
        }
      }
    }

    /** `interaction_sun_only(dT)`: every body other than the chosen sun is
        kicked once, by the sun; the sun itself is not kicked. */
    method InteractionSunOnly(dT: real, norm: Vec -> real)
      requires Valid() && SunSeparated(State(), norm)
      modifies planets
      ensures Valid()
      ensures State() == SunOnlyInteraction(old(State()), dT, norm)
      ensures Diags() == old(Diags())
    {
      ghost var before := State();
      var sunIndex := FindSunIndex();
      if |planets| > 0 {
        SunIndexFound(before, sunIndex);
      }
      for i := 0 to |planets|
        invariant forall k :: 0 <= k < |planets| ==>
                    planets[k].Diag() == old(planets[k].Diag()) &&
                    planets[k].Value() ==
                      if k < i && k != sunIndex then Physics.Gravity(before[k], before[sunIndex], dT, norm)
                      else before[k]
      {
        if i != sunIndex {
          ghost var kicked := Physics.Gravity(before[i], before[sunIndex], dT, norm);
          planets[i].Gravity(planets[sunIndex], dT, norm);
          assert planets[i].Value() == kicked;
        }
      }
      assert State() == SunOnlyInteraction(before, dT, norm);
    }

    /** `FindSunIndex` and `SunIndex` agree: both describe the last sun, or 0. */
    static lemma SunIndexFound(bs: seq<Body>, k: nat)
      requires |bs| > 0 && k < |bs|
      requires (exists i :: 0 <= i < |bs| && bs[i].isSun) ==>
                 bs[k].isSun && forall j :: k < j < |bs| ==> !bs[j].isSun
      requires (forall i :: 0 <= i < |bs| ==> !bs[i].isSun) ==> k == 0
      ensures k == SunIndex(bs)
    {
      LastSunBeforeSpec(bs, |bs|);
    }

    /** `calc_qts()`: every body that is not a sun gets its angular momentum,
        kinetic, potential and total energy; positions and velocities are only
        read. */
    method CalcQts(norm: Vec -> real)
      requires Valid() && DiagnosticsDefined(State(), norm)
      modifies planets
      ensures Valid()
      ensures State() == old(State())
      ensures forall i :: 0 <= i < |planets| && planets[i].isSun ==> Diags()[i] == old(Diags()[i])
      ensures forall i :: 0 <= i < |planets| && !planets[i].isSun ==>
                Diags()[i] == DiagnosticsOf(State(), i, norm)
    {
      ghost var before := State();
      var n := |planets|;
      for i := 0 to n
        invariant forall k :: 0 <= k < n ==>
                    planets[k].Value() == before[k] &&
                    planets[k].Diag() ==
                      if k < i && !planets[k].isSun then DiagnosticsOf(before, k, norm)
                      else old(planets[k].Diag())
      {
        var first := planets[i];
        if !first.isSun {
          first.angMoment := Cross(first.position, first.velocity);
          first.kineticEnergy := 0.5 * first.mass * (norm(first.velocity) * norm(first.velocity));
          SumPotential(i, first, before, norm);
          first.totEnergy := first.potEnergy + first.kineticEnergy;
          assert first.Diag() == DiagnosticsOf(before, i, norm);
        }
      }
      assert State() == before;
    }

    /** The inner loop of `calc_qts`: the potential energy of the body at `i`
        starts at 0 and loses `m_i * m_j / |pos_j - pos_i|` for every other
        body `j`, in list order. */
    method SumPotential(i: nat, first: Planet, ghost bs: seq<Body>, norm: Vec -> real)
      requires Owned() && i < |planets| && planets[i] == first
      requires |bs| == |planets| && forall k :: 0 <= k < |planets| ==> planets[k].Value() == bs[k]
      requires !bs[i].isSun
      requires DiagnosticsDefined(bs, norm)
      modifies first`potEnergy
      ensures first.potEnergy == PotentialEnergy(bs, i, |planets|, norm)
    {
      ghost var before := bs;
      first.potEnergy := 0.0;
      for j := 0 to |planets|
        invariant first.potEnergy == PotentialEnergy(before, i, j, norm)
      {
        if i != j {
          var second := planets[j];
          var relVec := Sub(second.position, first.position);
          assert relVec == Sub(before[j].position, before[i].position);
          assert Distance(before[i].position, before[j].position, norm) != 0.0;
          first.potEnergy := first.potEnergy - (first.mass * second.mass) / norm(relVec);
        }
      }
    }

    /** `step()`: advance with full pairwise interaction by the integrator
        named at construction, then recompute the diagnostics. */
    method Step(norm: Vec -> real)
      requires Valid()
      requires AdvanceDefined(State(), integrator, Full, deltaT, norm)
      requires DiagnosticsDefined(Advance(State(), integrator, Full, deltaT, norm), norm)
      modifies planets
      ensures Valid()
      ensures State() == Advance(old(State()), integrator, Full, deltaT, norm)
      ensures forall i :: 0 <= i < |planets| ==>
                Diags()[i] == if planets[i].isSun then NoDiagnostics else DiagnosticsOf(State(), i, norm)
    {
      ghost var before := State();
      ghost var after := Advance(before, integrator, Full, deltaT, norm);
      if integrator == "Euler" {
        ghost var moved := Drift(before, deltaT);
        assert Separated(moved, norm);
        assert after == FullInteraction(moved, deltaT, norm);
        UpdatePositions(deltaT);
        assert State() == moved;
        PlanetInteraction(deltaT, norm);
        assert State() == after;
      } else if integrator == "Leapfrog" {
        ghost var half := Drift(before, deltaT / 2.0);
        assert Separated(half, norm);
        ghost var kicked := FullInteraction(half, deltaT, norm);
        assert after == Drift(kicked, deltaT / 2.0);
        UpdatePositions(deltaT / 2.0);
        assert State() == half;
        PlanetInteraction(deltaT, norm);
        assert State() == kicked;
        UpdatePositions(deltaT / 2.0);
        assert State() == Drift(kicked, deltaT / 2.0);
      }
      assert State() == after;
      CalcQts(norm);
    }

    /** `step_no_planet_interact()`: the same, with only the sun pulling. */
    method StepNoPlanetInteract(norm: Vec -> real)
      requires Valid()
      requires AdvanceDefined(State(), integrator, SunOnly, deltaT, norm)
      requires DiagnosticsDefined(Advance(State(), integrator, SunOnly, deltaT, norm), norm)
      modifies planets
      ensures Valid()
      ensures State() == Advance(old(State()), integrator, SunOnly, deltaT, norm)
      ensures forall i :: 0 <= i < |planets| ==>
                Diags()[i] == if planets[i].isSun then NoDiagnostics else DiagnosticsOf(State(), i, norm)
    {
      ghost var before := State();
      ghost var after := Advance(before, integrator, SunOnly, deltaT, norm);
      if integrator == "Euler" {
        ghost var moved := Drift(before, deltaT);
        assert SunSeparated(moved, norm);
        assert after == SunOnlyInteraction(moved, deltaT, norm);
        UpdatePositions(deltaT);
        assert State() == moved;
        InteractionSunOnly(deltaT, norm);
        assert State() == after;
      } else if integrator == "Leapfrog" {
        ghost var half := Drift(before, deltaT / 2.0);
        assert SunSeparated(half, norm);
        ghost var kicked := SunOnlyInteraction(half, deltaT, norm);
        assert after == Drift(kicked, deltaT / 2.0);
        UpdatePositions(deltaT / 2.0);
        assert State() == half;
        InteractionSunOnly(deltaT, norm);
        assert State() == kicked;
        UpdatePositions(deltaT / 2.0);
        assert State() == Drift(kicked, deltaT / 2.0);
      }
      assert State() == after;
      CalcQts(norm);
    }
  }
}

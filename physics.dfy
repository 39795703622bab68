/** The physics of the solar-system engine stated on values: what one body is,
    what `update_position` and `gravity` do to it, what the two interaction
    topologies and the two integrators do to the whole list of bodies, and the
    per-body diagnostics. The imperative model in module SolarSysClass is
    proved against these functions. */
module Physics {
  import opened Vectors

  /** The kinematic state of one body. `isSun` is true for a `Sun`, false for
      a plain `Planet`; mass and role never change after construction. */
  datatype Body = Body(mass: real, position: Vec, velocity: Vec, isSun: bool)

  /** The four diagnostic fields of a body: `ang_moment`, `kinetic_energy`,
      `pot_energy` and `tot_energy`. */
  datatype Diagnostics = Diagnostics(angMoment: Vec, kineticEnergy: real, potEnergy: real, totEnergy: real)

  /** The values a body's diagnostics hold from construction on. */
  const NoDiagnostics := Diagnostics(Zero, 0.0, 0.0, 0.0)

  /** `step` lets every body pull on every other; `step_no_planet_interact`
      lets only the sun pull. */
  datatype Topology = Full | SunOnly

  /** The distance `norm(to - from)` as the engine measures it. */
  function Distance(from: Vec, to: Vec, norm: Vec -> real): real {
    norm(Sub(to, from))
  }

  // ---------------------------------------------------------------------------
  // One body
  // ---------------------------------------------------------------------------

  /** `update_position(dT)`: a planet drifts along its velocity, a sun stays.
      Only the position can change. */
  function Moved(b: Body, dT: real): (r: Body)
    ensures r.mass == b.mass && r.velocity == b.velocity && r.isSun == b.isSun
    ensures b.isSun ==> r == b
  {
    if b.isSun then b else b.(position := Add(b.position, Scale(b.velocity, dT)))
  }

  /** The velocity change `gravity` gives a body at `at` pulled by `src`:
      `(src.mass / d**2) * ((src.position - at) / d) * dT`, with the division
      by `d**2` written as two divisions by `d` (the same real number). */
  function Accel(at: Vec, src: Body, dT: real, norm: Vec -> real): Vec
    requires Distance(at, src.position, norm) != 0.0
  {
    var rel := Sub(src.position, at);
    var d := norm(rel);
    Scale(Scale(Div(rel, d), src.mass / d / d), dT)
  }

  /** `gravity(other, dT)` on values: `b` is kicked towards `src`. Position,
      mass and role stay; the velocity changes by exactly the kick. */
  function Gravity(b: Body, src: Body, dT: real, norm: Vec -> real): (r: Body)
    requires Distance(b.position, src.position, norm) != 0.0
    ensures r.position == b.position && r.mass == b.mass && r.isSun == b.isSun
    ensures Sub(r.velocity, b.velocity) == Accel(b.position, src, dT, norm)
  {
    b.(velocity := Add(b.velocity, Accel(b.position, src, dT, norm)))
  }

  /** A body moves only if it is a planet, and then by its velocity times dT;
      mass, velocity and role stay. */
  lemma MovedSpec(b: Body, dT: real)
    ensures !b.isSun ==> Sub(Moved(b, dT).position, b.position) == Scale(b.velocity, dT)
  {
  }

  /** Two drifts of a planet add up: half a step twice is a whole step. */
  lemma {:induction false} MovedTwice(b: Body, dT1: real, dT2: real)
    ensures Moved(Moved(b, dT1), dT2) == Moved(b, dT1 + dT2)
  {
    if !b.isSun {
      var p, v := b.position, b.velocity;
      assert Add(Add(p, Scale(v, dT1)), Scale(v, dT2)) == Add(p, Scale(v, dT1 + dT2));
    }
  }

  /** The kick points from the body towards its source: it is the separation
      vector times `src.mass * dT / d**3`. */
  lemma AccelAlongSeparation(at: Vec, src: Body, dT: real, norm: Vec -> real)
    requires Distance(at, src.position, norm) != 0.0
    ensures var d := Distance(at, src.position, norm);
            Accel(at, src, dT, norm) == Scale(Sub(src.position, at), src.mass / d / d * dT / d)
  {
    var rel := Sub(src.position, at);
    var d := norm(rel);
    assert Accel(at, src, dT, norm) == Scale(Scale(Div(rel, d), src.mass / d / d), dT);
    ScaleDivVec(rel, d, src.mass, dT);
  }

  /** `AccelAlongSeparation` once the distance is known to be `d`. */
  lemma ScaleDivVec(rel: Vec, d: real, m: real, dT: real)
    requires d != 0.0
    ensures Scale(Scale(Div(rel, d), m / d / d), dT) == Scale(rel, m / d / d * dT / d)
  {
    ScaleDivComponent(rel.x, d, m, dT);
    ScaleDivComponent(rel.y, d, m, dT);
    ScaleDivComponent(rel.z, d, m, dT);
  }

  /** One component of `AccelAlongSeparation`. */
  lemma ScaleDivComponent(r: real, d: real, m: real, dT: real)
    requires d != 0.0
    ensures r / d * (m / d / d) * dT == r * (m / d / d * dT / d)
  {
  }

  // ---------------------------------------------------------------------------
  // The list of bodies
  // ---------------------------------------------------------------------------

  /** Every ordered pair of distinct bodies is at a non-zero distance, so that
      `gravity` and `calc_qts` never divide by zero. */
  ghost predicate Separated(bs: seq<Body>, norm: Vec -> real) {
    forall i, j :: 0 <= i < |bs| && 0 <= j < |bs| && i != j ==>
      Distance(bs[i].position, bs[j].position, norm) != 0.0
  }

  /** `r` holds the bodies of `bs` with the same masses and roles, and every
      sun where it was. */
  ghost predicate SunsStay(bs: seq<Body>, r: seq<Body>) {
    |r| == |bs| &&
    forall i :: 0 <= i < |bs| ==>
      r[i].mass == bs[i].mass && r[i].isSun == bs[i].isSun && (bs[i].isSun ==> r[i].position == bs[i].position)
  }

  /** `r` holds the bodies of `bs` at the same positions, with the same masses
      and roles: only velocities may differ. */
  ghost predicate OnlyVelocitiesChange(bs: seq<Body>, r: seq<Body>) {
    |r| == |bs| &&
    forall i :: 0 <= i < |bs| ==>
      r[i].position == bs[i].position && r[i].mass == bs[i].mass && r[i].isSun == bs[i].isSun
  }

  /** The loop `for planet in self.planets: planet.update_position(dT)`: no
      velocity changes. */
  function Drift(bs: seq<Body>, dT: real): (r: seq<Body>)
    ensures |r| == |bs|
    ensures forall i :: 0 <= i < |bs| ==> r[i].velocity == bs[i].velocity
  {
    seq(|bs|, i requires 0 <= i < |bs| => Moved(bs[i], dT))
  }

  /** A drift keeps every mass and role, and no sun moves. */
  lemma DriftKeepsSuns(bs: seq<Body>, dT: real)
    ensures SunsStay(bs, Drift(bs, dT))
  {
  }

  /** The velocity of body `i` after the inner loop of `planet_interaction`
      has run over `j < k`: each `j != i` adds its kick in turn. */
  function KickedVelocity(bs: seq<Body>, i: nat, k: nat, dT: real, norm: Vec -> real): Vec
    requires i < |bs| && k <= |bs| && Separated(bs, norm)
  {
    if k == 0 then bs[i].velocity
    else
      var v := KickedVelocity(bs, i, k - 1, dT, norm);
      if k - 1 == i then v else Add(v, Accel(bs[i].position, bs[k - 1], dT, norm))
  }

  /** The kicks a body receives read only the positions and masses of the
      bodies and its own velocity: two lists that agree on those give the
      body the same velocity, whatever the other velocities are. This is why
      the sequential loop of `planet_interaction` equals a simultaneous
      update. */
  lemma {:induction false} KickedVelocityFrame(bs: seq<Body>, cs: seq<Body>, i: nat, k: nat, dT: real, norm: Vec -> real)
    requires |bs| == |cs| && i < |bs| && k <= |bs| && Separated(bs, norm)
    requires forall j :: 0 <= j < |bs| ==> bs[j].position == cs[j].position && bs[j].mass == cs[j].mass
    requires bs[i].velocity == cs[i].velocity
    ensures Separated(cs, norm)
    ensures KickedVelocity(bs, i, k, dT, norm) == KickedVelocity(cs, i, k, dT, norm)
  {
    if k > 0 {
      KickedVelocityFrame(bs, cs, i, k - 1, dT, norm);
    }
  }

  /** The sum of the kicks body `i` receives from bodies `j < k`, `j != i`. */
  function KickSum(bs: seq<Body>, i: nat, k: nat, dT: real, norm: Vec -> real): Vec
    requires i < |bs| && k <= |bs| && Separated(bs, norm)
  {
    if k == 0 then Zero
    else if k - 1 == i then KickSum(bs, i, k - 1, dT, norm)
    else Add(KickSum(bs, i, k - 1, dT, norm), Accel(bs[i].position, bs[k - 1], dT, norm))
  }

  /** Kicking one after another in the inner loop adds up to the old velocity
      plus the sum of the kicks. */
  lemma {:induction false} KickedVelocityIsSum(bs: seq<Body>, i: nat, k: nat, dT: real, norm: Vec -> real)
    requires i < |bs| && k <= |bs| && Separated(bs, norm)
    ensures KickedVelocity(bs, i, k, dT, norm) == Add(bs[i].velocity, KickSum(bs, i, k, dT, norm))
  {
    if k > 0 {
      KickedVelocityIsSum(bs, i, k - 1, dT, norm);
    }
  }

  /** `planet_interaction(dT)` on values: every body receives the kick of every
      other body, each computed from the positions and masses before the
      interaction, which the interaction never changes. */
  function FullInteraction(bs: seq<Body>, dT: real, norm: Vec -> real): (r: seq<Body>)
    requires Separated(bs, norm)
    ensures |r| == |bs|
  {
    seq(|bs|, i requires 0 <= i < |bs| =>
      bs[i].(velocity := KickedVelocity(bs, i, |bs|, dT, norm)))
  }

  /** The index `interaction_sun_only` scans for among the bodies before `k`:
      the last one that is a sun, or 0 when there is none. */
  function LastSunBefore(bs: seq<Body>, k: nat): nat
    requires k <= |bs|
  {
    if k == 0 then 0
    else if bs[k - 1].isSun then k - 1
    else LastSunBefore(bs, k - 1)
  }

  /** `LastSunBefore` is an index below `k`; it is a sun with no sun after it
      when there is a sun before `k`, and 0 otherwise. */
  lemma {:induction false} LastSunBeforeSpec(bs: seq<Body>, k: nat)
    requires k <= |bs|
    ensures k > 0 ==> LastSunBefore(bs, k) < k
    ensures (exists j :: 0 <= j < k && bs[j].isSun) ==>
              bs[LastSunBefore(bs, k)].isSun && forall j :: LastSunBefore(bs, k) < j < k ==> !bs[j].isSun
    ensures (forall j :: 0 <= j < k ==> !bs[j].isSun) ==> LastSunBefore(bs, k) == 0
  {
    if k > 0 && !bs[k - 1].isSun {
      LastSunBeforeSpec(bs, k - 1);
      if exists j :: 0 <= j < k && bs[j].isSun {
        var j :| 0 <= j < k && bs[j].isSun;
        assert j < k - 1;
      }
    }
  }

  /** The body `interaction_sun_only` treats as the sun. */
  function SunIndex(bs: seq<Body>): (s: nat)
    requires |bs| > 0
    ensures s < |bs|
  {
    LastSunBeforeSpec(bs, |bs|);
    LastSunBefore(bs, |bs|)
  }

  /** Every body other than the chosen sun is at a non-zero distance from it. */
  ghost predicate SunSeparated(bs: seq<Body>, norm: Vec -> real) {
    |bs| > 0 ==>
      var s := SunIndex(bs);
      forall i :: 0 <= i < |bs| && i != s ==> Distance(bs[i].position, bs[s].position, norm) != 0.0
  }

  /** `interaction_sun_only(dT)` on values: the chosen sun is left alone and
      every other body receives exactly one kick, from the sun. */
  function SunOnlyInteraction(bs: seq<Body>, dT: real, norm: Vec -> real): (r: seq<Body>)
    requires SunSeparated(bs, norm)
    ensures |r| == |bs|
  {
    if |bs| == 0 then bs
    else
      var s := SunIndex(bs);
      seq(|bs|, i requires 0 <= i < |bs| =>
        if i == s then bs[i] else Gravity(bs[i], bs[s], dT, norm))
  }

  /** No division by zero in the interaction of the chosen topology. */
  ghost predicate InteractionDefined(bs: seq<Body>, topology: Topology, norm: Vec -> real) {
    match topology
    case Full => Separated(bs, norm)
    case SunOnly => SunSeparated(bs, norm)
  }

  /** The interaction of the chosen topology. */
  function Interact(bs: seq<Body>, topology: Topology, dT: real, norm: Vec -> real): (r: seq<Body>)
    requires InteractionDefined(bs, topology, norm)
    ensures |r| == |bs|
  {
    match topology
    case Full => FullInteraction(bs, dT, norm)
    case SunOnly => SunOnlyInteraction(bs, dT, norm)
  }

  /** No division by zero in the step the integrator name selects. */
  ghost predicate AdvanceDefined(bs: seq<Body>, integrator: string, topology: Topology, dT: real, norm: Vec -> real) {
    if integrator == "Euler" then InteractionDefined(Drift(bs, dT), topology, norm)
    else if integrator == "Leapfrog" then InteractionDefined(Drift(bs, dT / 2.0), topology, norm)
    else true
  }

  /** The kinematic part of `step` (topology Full) and
      `step_no_planet_interact` (topology SunOnly): "Euler" drifts a whole
      step then kicks, "Leapfrog" drifts half a step, kicks with the whole
      step, then drifts the other half; any other name changes nothing.
      Whatever the integrator and the topology, masses and roles stay and no
      sun moves. */
  function Advance(bs: seq<Body>, integrator: string, topology: Topology, dT: real, norm: Vec -> real): (r: seq<Body>)
    requires AdvanceDefined(bs, integrator, topology, dT, norm)
    ensures |r| == |bs|
  {
    if integrator == "Euler" then
      Interact(Drift(bs, dT), topology, dT, norm)
    else if integrator == "Leapfrog" then
      Drift(Interact(Drift(bs, dT / 2.0), topology, dT, norm), dT / 2.0)
    else bs
  }

  // ---------------------------------------------------------------------------
  // Diagnostics (`calc_qts`)
  // ---------------------------------------------------------------------------

  /** Every body that gets diagnostics is at a non-zero distance from every
      other body. */
  ghost predicate DiagnosticsDefined(bs: seq<Body>, norm: Vec -> real) {
    forall i, j :: 0 <= i < |bs| && 0 <= j < |bs| && i != j && !bs[i].isSun ==>
      Distance(bs[i].position, bs[j].position, norm) != 0.0
  }

  /** `pot_energy` of body `i` after the inner loop has run over `j < k`:
      starting from 0, each `j != i` subtracts `m_i * m_j / |pos_j - pos_i|`. */
  function PotentialEnergy(bs: seq<Body>, i: nat, k: nat, norm: Vec -> real): real
    requires i < |bs| && k <= |bs| && !bs[i].isSun && DiagnosticsDefined(bs, norm)
  {
    if k == 0 then 0.0
    else
      var p := PotentialEnergy(bs, i, k - 1, norm);
      if k - 1 == i then p
      else p - (bs[i].mass * bs[k - 1].mass) / Distance(bs[i].position, bs[k - 1].position, norm)
  }

  /** `0.5 * mass * norm(velocity)**2` */
  function KineticEnergy(b: Body, norm: Vec -> real): real {
    0.5 * b.mass * (norm(b.velocity) * norm(b.velocity))
  }

  /** What `calc_qts` writes into body `i`. */
  function DiagnosticsOf(bs: seq<Body>, i: nat, norm: Vec -> real): Diagnostics
    requires i < |bs| && !bs[i].isSun && DiagnosticsDefined(bs, norm)
  {
    var kinetic := KineticEnergy(bs[i], norm);
    var potential := PotentialEnergy(bs, i, |bs|, norm);
    Diagnostics(Cross(bs[i].position, bs[i].velocity), kinetic, potential, potential + kinetic)
  }

  // ---------------------------------------------------------------------------
  // What the interactions and the integrators change
  // ---------------------------------------------------------------------------

  /** `gravity` applied at list position `i`, pulled by the body at `j`: one
      iteration of the nested loop of `planet_interaction`. */
  function KickAt(bs: seq<Body>, i: nat, j: nat, dT: real, norm: Vec -> real): (r: seq<Body>)
    requires i < |bs| && j < |bs| && Distance(bs[i].position, bs[j].position, norm) != 0.0
    ensures |r| == |bs|
    ensures forall m :: 0 <= m < |bs| ==> r[m].position == bs[m].position && r[m].mass == bs[m].mass
  {
    bs[i := Gravity(bs[i], bs[j], dT, norm)]
  }

  /** Two kicks commute: each reads only positions and masses, which no kick
      changes, and adds to one velocity. So the order in which the nested
      loop visits the pairs does not matter. */
  lemma KicksCommute(bs: seq<Body>, i: nat, j: nat, k: nat, l: nat, dT: real, norm: Vec -> real)
    requires i < |bs| && j < |bs| && k < |bs| && l < |bs|
    requires Distance(bs[i].position, bs[j].position, norm) != 0.0
    requires Distance(bs[k].position, bs[l].position, norm) != 0.0
    ensures KickAt(KickAt(bs, i, j, dT, norm), k, l, dT, norm) == KickAt(KickAt(bs, k, l, dT, norm), i, j, dT, norm)
  {
    var ij := KickAt(bs, i, j, dT, norm);
    var kl := KickAt(bs, k, l, dT, norm);
    var a := Accel(bs[i].position, bs[j], dT, norm);
    var b := Accel(bs[k].position, bs[l], dT, norm);
    assert Accel(ij[k].position, ij[l], dT, norm) == b;
    assert Accel(kl[i].position, kl[j], dT, norm) == a;
    if i == k {
      assert Add(Add(bs[i].velocity, a), b) == Add(Add(bs[i].velocity, b), a);
    }
  }

  /** `planet_interaction` changes velocities only: every body keeps its
      position, mass and role, and its velocity grows by the sum of the kicks
      from all the other bodies. */
  lemma FullInteractionSpec(bs: seq<Body>, dT: real, norm: Vec -> real)
    requires Separated(bs, norm)
    ensures |FullInteraction(bs, dT, norm)| == |bs|
    ensures forall i :: 0 <= i < |bs| ==>
              var r := FullInteraction(bs, dT, norm)[i];
              r.position == bs[i].position && r.mass == bs[i].mass && r.isSun == bs[i].isSun &&
              r.velocity == Add(bs[i].velocity, KickSum(bs, i, |bs|, dT, norm))
  {
    forall i | 0 <= i < |bs|
      ensures FullInteraction(bs, dT, norm)[i].velocity == Add(bs[i].velocity, KickSum(bs, i, |bs|, dT, norm))
    {
      KickedVelocityIsSum(bs, i, |bs|, dT, norm);
    }
  }

  /** Newton's third law for one pair: with a true norm, the kick `a` gets
      from `b` times `a`'s mass is the opposite of the kick `b` gets from `a`
      times `b`'s mass. */
  lemma ThirdLaw(a: Body, b: Body, dT: real, norm: Vec -> real)
    requires IsNorm(norm) && Distance(a.position, b.position, norm) != 0.0
    ensures Distance(b.position, a.position, norm) != 0.0
    ensures Add(Scale(Accel(a.position, b, dT, norm), a.mass),
                Scale(Accel(b.position, a, dT, norm), b.mass)) == Zero
  {
    var rel := Sub(b.position, a.position);
    SubAntisymmetric(a.position, b.position);
    NormNeg(norm, rel);
    var d := norm(rel);
    assert Distance(b.position, a.position, norm) == d;
    var ab := Accel(a.position, b, dT, norm);
    var ba := Accel(b.position, a, dT, norm);
    assert ab == Scale(Scale(Div(rel, d), b.mass / d / d), dT);
    assert ba == Scale(Scale(Div(Neg(rel), d), a.mass / d / d), dT);
    ThirdLawVec(rel, d, a.mass, b.mass, dT);
  }

  /** `ThirdLaw` once both distances are known to be `d`. */
  lemma ThirdLawVec(rel: Vec, d: real, ma: real, mb: real, dT: real)
    requires d != 0.0
    ensures Add(Scale(Scale(Scale(Div(rel, d), mb / d / d), dT), ma),
                Scale(Scale(Scale(Div(Neg(rel), d), ma / d / d), dT), mb)) == Zero
  {
    var unit := Div(rel, d);
    NegDiv(rel, d);
    ScaledPull(unit, mb, d, dT, ma);
    ScaledPull(Neg(unit), ma, d, dT, mb);
    PullsCancel(unit, ma, mb, d, dT);
  }

  /** The three scalings of a kick, times the mass of the body pulled, are
      one scaling. */
  lemma ScaledPull(v: Vec, m: real, d: real, dT: real, mp: real)
    requires d != 0.0
    ensures Scale(Scale(Scale(v, m / d / d), dT), mp) == Scale(v, m / d / d * dT * mp)
  {
  }

  /** The pulls of `a` on `b` and of `b` on `a`, along opposite directions
      and each times the mass pulled, cancel. */
  lemma PullsCancel(v: Vec, ma: real, mb: real, d: real, dT: real)
    requires d != 0.0
    ensures Add(Scale(v, mb / d / d * dT * ma), Scale(Neg(v), ma / d / d * dT * mb)) == Zero
  {
    var k := mb / d / d * dT * ma;
    var k' := ma / d / d * dT * mb;
    MassSwap(ma, mb, d, dT);
    assert k == k';
    ScaleNeg(v, k);
    AddNeg(Scale(v, k));
  }

  /** Scaling the reversed vector is reversing the scaled one. */
  lemma ScaleNeg(v: Vec, k: real)
    ensures Scale(Neg(v), k) == Neg(Scale(v, k))
  {
  }

  /** A vector plus its reverse is zero. */
  lemma AddNeg(v: Vec)
    ensures Add(v, Neg(v)) == Zero
  {
  }

  /** Dividing the reversed vector is reversing the divided one. */
  lemma NegDiv(v: Vec, d: real)
    requires d != 0.0
    ensures Div(Neg(v), d) == Neg(Div(v, d))
  {
    NegDivComponent(v.x, d);
    NegDivComponent(v.y, d);
    NegDivComponent(v.z, d);
  }

  lemma NegDivComponent(r: real, d: real)
    requires d != 0.0
    ensures (-r) / d == -(r / d)
  {
    var a, b := (-r) / d, -(r / d);
    assert d * a == -r && d * b == -r;
    assert d * (a - b) == 0.0;
    if a != b {
      MulNonZero(d, a - b);
    }
  }

  /** The factors that `a` and `b` pull each other with, times the mass of
      the body pulled, are equal. */
  lemma MassSwap(ma: real, mb: real, d: real, dT: real)
    requires d != 0.0
    ensures mb / d / d * dT * ma == ma / d / d * dT * mb
  {
    var e := 1.0 / d / d;
    assert mb / d / d == mb * e;
    assert ma / d / d == ma * e;
  }

  /** For two bodies the full interaction conserves momentum:
      `m0 * dv0 + m1 * dv1 == 0`. */
  lemma TwoBodyMomentum(bs: seq<Body>, dT: real, norm: Vec -> real)
    requires |bs| == 2 && IsNorm(norm) && Separated(bs, norm)
    ensures var r := FullInteraction(bs, dT, norm);
            Add(Scale(Sub(r[0].velocity, bs[0].velocity), bs[0].mass),
                Scale(Sub(r[1].velocity, bs[1].velocity), bs[1].mass)) == Zero
  {
    var r := FullInteraction(bs, dT, norm);
    var a0 := Accel(bs[0].position, bs[1], dT, norm);
    var a1 := Accel(bs[1].position, bs[0], dT, norm);
    assert KickedVelocity(bs, 0, 1, dT, norm) == bs[0].velocity;
    assert KickedVelocity(bs, 0, 2, dT, norm) == Add(bs[0].velocity, a0);
    assert KickedVelocity(bs, 1, 1, dT, norm) == Add(bs[1].velocity, a1);
    assert KickedVelocity(bs, 1, 2, dT, norm) == Add(bs[1].velocity, a1);
    assert Sub(r[0].velocity, bs[0].velocity) == a0;
    assert Sub(r[1].velocity, bs[1].velocity) == a1;
    ThirdLaw(bs[0], bs[1], dT, norm);
  }

  /** `interaction_sun_only` leaves the chosen sun alone and gives every other
      body, sun or planet, exactly one kick: the one from the chosen sun.
      Positions, masses and roles do not change. */
  lemma SunOnlyInteractionSpec(bs: seq<Body>, dT: real, norm: Vec -> real)
    requires |bs| > 0 && SunSeparated(bs, norm)
    ensures var r := SunOnlyInteraction(bs, dT, norm);
            var s := SunIndex(bs);
            |r| == |bs| && r[s] == bs[s] &&
            forall i :: 0 <= i < |bs| && i != s ==>
              r[i].position == bs[i].position && r[i].mass == bs[i].mass && r[i].isSun == bs[i].isSun &&
              r[i].velocity == Add(bs[i].velocity, Accel(bs[i].position, bs[s], dT, norm))
  {
  }

  /** Neither interaction moves a body or changes its mass or role. */
  lemma InteractKeeps(bs: seq<Body>, topology: Topology, dT: real, norm: Vec -> real)
    requires InteractionDefined(bs, topology, norm)
    ensures OnlyVelocitiesChange(bs, Interact(bs, topology, dT, norm))
  {
  }

  /** Whatever the integrator and the topology, a step keeps every mass and
      role, and a `Sun` never moves. */
  lemma AdvanceKeepsSuns(bs: seq<Body>, integrator: string, topology: Topology, dT: real, norm: Vec -> real)
    requires AdvanceDefined(bs, integrator, topology, dT, norm)
    ensures SunsStay(bs, Advance(bs, integrator, topology, dT, norm))
  {
    if integrator == "Euler" {
      DriftKeepsSuns(bs, dT);
      InteractKeeps(Drift(bs, dT), topology, dT, norm);
    } else if integrator == "Leapfrog" {
      var half := Drift(bs, dT / 2.0);
      DriftKeepsSuns(bs, dT / 2.0);
      InteractKeeps(half, topology, dT, norm);
      DriftKeepsSuns(Interact(half, topology, dT, norm), dT / 2.0);
    }
  }

  /** An integrator name other than "Euler" and "Leapfrog" leaves every body
      as it was. */
  lemma AdvanceUnknownIntegrator(bs: seq<Body>, integrator: string, topology: Topology, dT: real, norm: Vec -> real)
    requires integrator != "Euler" && integrator != "Leapfrog"
    ensures AdvanceDefined(bs, integrator, topology, dT, norm)
    ensures Advance(bs, integrator, topology, dT, norm) == bs
  {
  }

  /** An Euler step moves a planet with the velocity it had before the step,
      and then adds the kicks computed at the new positions. */
  lemma EulerShape(bs: seq<Body>, topology: Topology, dT: real, norm: Vec -> real, i: nat)
    requires AdvanceDefined(bs, "Euler", topology, dT, norm)
    requires i < |bs| && !bs[i].isSun
    ensures var r := Advance(bs, "Euler", topology, dT, norm);
            |r| == |bs| &&
            r[i].position == Add(bs[i].position, Scale(bs[i].velocity, dT)) &&
            r[i].velocity == Interact(Drift(bs, dT), topology, dT, norm)[i].velocity
    ensures topology == Full ==>
              Separated(Drift(bs, dT), norm) &&
              Advance(bs, "Euler", topology, dT, norm)[i].velocity ==
                Add(bs[i].velocity, KickSum(Drift(bs, dT), i, |bs|, dT, norm))
  {
    if topology == Full {
      FullInteractionSpec(Drift(bs, dT), dT, norm);
    }
  }

  /** A Leapfrog step moves a planet half a step with its old velocity and
      half a step with its new one; the new velocity is the kick computed at
      the half-step positions. */
  lemma LeapfrogShape(bs: seq<Body>, topology: Topology, dT: real, norm: Vec -> real, i: nat)
    requires AdvanceDefined(bs, "Leapfrog", topology, dT, norm)
    requires i < |bs| && !bs[i].isSun
    ensures var r := Advance(bs, "Leapfrog", topology, dT, norm);
            |r| == |bs| &&
            r[i].position == Add(Add(bs[i].position, Scale(bs[i].velocity, dT / 2.0)), Scale(r[i].velocity, dT / 2.0)) &&
            r[i].velocity == Interact(Drift(bs, dT / 2.0), topology, dT, norm)[i].velocity
  {
  }

  /** When no body is a `Sun`, `step_no_planet_interact` lets body 0 pull on
      the others, yet body 0 itself is a planet: it is never kicked and, under
      Leapfrog, its two half drifts make one whole drift. */
  lemma LeapfrogPlanetAsSun(bs: seq<Body>, dT: real, norm: Vec -> real)
    requires |bs| > 0 && forall j :: 0 <= j < |bs| ==> !bs[j].isSun
    requires AdvanceDefined(bs, "Leapfrog", SunOnly, dT, norm)
    ensures Advance(bs, "Leapfrog", SunOnly, dT, norm)[0] == Moved(bs[0], dT)
  {
    var half := Drift(bs, dT / 2.0);
    LastSunBeforeSpec(half, |half|);
    assert SunIndex(half) == 0;
    MovedTwice(bs[0], dT / 2.0, dT / 2.0);
  }

  /** Which body is the chosen sun depends only on the roles. */
  lemma {:induction false} LastSunBeforeRoles(bs: seq<Body>, cs: seq<Body>, k: nat)
    requires k <= |bs| == |cs|
    requires forall j :: 0 <= j < |bs| ==> bs[j].isSun == cs[j].isSun
    ensures LastSunBefore(bs, k) == LastSunBefore(cs, k)
  {
    if k > 0 {
      LastSunBeforeRoles(bs, cs, k - 1);
    }
  }

  /** The list made of the chosen sun and body `i`. */
  function SunPair(bs: seq<Body>, i: nat): (r: seq<Body>)
    requires 0 < |bs| && i < |bs| && !bs[i].isSun
    ensures |r| == 2 && r[1] == bs[i]
    ensures SunIndex(r) == 0
  {
    var r := [bs[SunIndex(bs)], bs[i]];
    assert LastSunBefore(r, 2) == LastSunBefore(r, 1);
    r
  }

  /** In the sun-only interaction a planet gets the same kick it would get in
      a system holding only the chosen sun and itself. */
  lemma SunOnlyPair(bs: seq<Body>, i: nat, dT: real, norm: Vec -> real)
    requires 0 < |bs| && i < |bs| && i != SunIndex(bs) && !bs[i].isSun
    requires SunSeparated(bs, norm)
    ensures SunSeparated(SunPair(bs, i), norm)
    ensures SunOnlyInteraction(SunPair(bs, i), dT, norm)[1] == SunOnlyInteraction(bs, dT, norm)[i]
  {
    var pair := SunPair(bs, i);
    assert pair[0] == bs[SunIndex(bs)];
  }

  /** Drifting commutes with picking out the sun and a body. */
  lemma DriftPair(bs: seq<Body>, i: nat, dT: real)
    requires 0 < |bs| && i < |bs| && !bs[i].isSun
    ensures SunIndex(Drift(bs, dT)) == SunIndex(bs)
    ensures Drift(SunPair(bs, i), dT) == SunPair(Drift(bs, dT), i)
  {
    LastSunBeforeRoles(bs, Drift(bs, dT), |bs|);
  }

  /** Under `step_no_planet_interact` the bodies do not see each other: one
      step of a planet in the whole system is the step it takes in the system
      of the chosen sun and itself alone. */
  lemma SunOnlyIndependent(bs: seq<Body>, integrator: string, dT: real, norm: Vec -> real, i: nat)
    requires 0 < |bs| && i < |bs| && i != SunIndex(bs) && !bs[i].isSun
    requires AdvanceDefined(bs, integrator, SunOnly, dT, norm)
    ensures AdvanceDefined(SunPair(bs, i), integrator, SunOnly, dT, norm)
    ensures Advance(SunPair(bs, i), integrator, SunOnly, dT, norm)[1] == Advance(bs, integrator, SunOnly, dT, norm)[i]
    ensures Advance(SunPair(bs, i), integrator, SunOnly, dT, norm)[0] == Advance(bs, integrator, SunOnly, dT, norm)[SunIndex(bs)]
  {
    var s := SunIndex(bs);
    if integrator == "Euler" {
      var moved := Drift(bs, dT);
      DriftPair(bs, i, dT);
      SunOnlyPair(moved, i, dT, norm);
      assert SunOnlyInteraction(moved, dT, norm)[s] == moved[s];
    } else if integrator == "Leapfrog" {
      var half := Drift(bs, dT / 2.0);
      DriftPair(bs, i, dT / 2.0);
      SunOnlyPair(half, i, dT, norm);
      var kicked := SunOnlyInteraction(half, dT, norm);
      var kickedPair := SunOnlyInteraction(SunPair(half, i), dT, norm);
      assert kicked[s] == half[s];
      assert Drift(kickedPair, dT / 2.0)[1] == Moved(kickedPair[1], dT / 2.0);
      assert Drift(kicked, dT / 2.0)[i] == Moved(kicked[i], dT / 2.0);
      assert Drift(kickedPair, dT / 2.0)[0] == Moved(kickedPair[0], dT / 2.0);
      assert Drift(kicked, dT / 2.0)[s] == Moved(kicked[s], dT / 2.0);
    }
  }

  /** No division by zero in any of `k` successive steps. */
  ghost predicate StepsDefined(bs: seq<Body>, integrator: string, topology: Topology, dT: real, norm: Vec -> real, k: nat)
    decreases k
  {
    k == 0 ||
    (AdvanceDefined(bs, integrator, topology, dT, norm) &&
     StepsDefined(Advance(bs, integrator, topology, dT, norm), integrator, topology, dT, norm, k - 1))
  }

  /** `k` successive steps, as `k` calls of `step` or
      `step_no_planet_interact` make them. */
  function AdvanceSteps(bs: seq<Body>, integrator: string, topology: Topology, dT: real, norm: Vec -> real, k: nat): (r: seq<Body>)
    requires StepsDefined(bs, integrator, topology, dT, norm, k)
    ensures |r| == |bs|
    decreases k
  {
    if k == 0 then bs
    else AdvanceSteps(Advance(bs, integrator, topology, dT, norm), integrator, topology, dT, norm, k - 1)
  }

  /** However many steps are taken, masses and roles stay and no sun moves. */
  lemma {:induction false} AdvanceStepsKeepSuns(bs: seq<Body>, integrator: string, topology: Topology, dT: real, norm: Vec -> real, k: nat)
    requires StepsDefined(bs, integrator, topology, dT, norm, k)
    ensures SunsStay(bs, AdvanceSteps(bs, integrator, topology, dT, norm, k))
    decreases k
  {
    if k > 0 {
      var next := Advance(bs, integrator, topology, dT, norm);
      AdvanceKeepsSuns(bs, integrator, topology, dT, norm);
      AdvanceStepsKeepSuns(next, integrator, topology, dT, norm, k - 1);
    }
  }

  /** Under `step_no_planet_interact` a planet's whole trajectory is the one
      it has in the system of the chosen sun and itself alone: after any
      number of steps the two agree on the planet and on the sun. */
  lemma {:induction false} SunOnlyTrajectory(bs: seq<Body>, integrator: string, dT: real, norm: Vec -> real, i: nat, k: nat)
    requires 0 < |bs| && i < |bs| && i != SunIndex(bs) && !bs[i].isSun
    requires StepsDefined(bs, integrator, SunOnly, dT, norm, k)
    ensures StepsDefined(SunPair(bs, i), integrator, SunOnly, dT, norm, k)
    ensures AdvanceSteps(SunPair(bs, i), integrator, SunOnly, dT, norm, k)[1] ==
            AdvanceSteps(bs, integrator, SunOnly, dT, norm, k)[i]
    ensures |AdvanceSteps(bs, integrator, SunOnly, dT, norm, k)| == |bs|
    ensures AdvanceSteps(SunPair(bs, i), integrator, SunOnly, dT, norm, k)[0] ==
            AdvanceSteps(bs, integrator, SunOnly, dT, norm, k)[SunIndex(bs)]
    decreases k
  {
    if k > 0 {
      var next := Advance(bs, integrator, SunOnly, dT, norm);
      SunOnlyIndependent(bs, integrator, dT, norm, i);
      AdvanceKeepsSuns(bs, integrator, SunOnly, dT, norm);
      LastSunBeforeRoles(bs, next, |bs|);
      var pairNext := Advance(SunPair(bs, i), integrator, SunOnly, dT, norm);
      assert pairNext == SunPair(next, i);
      SunOnlyTrajectory(next, integrator, dT, norm, i, k - 1);
    }
  }

  // ---------------------------------------------------------------------------
  // What the diagnostics mean
  // ---------------------------------------------------------------------------

  /** With a true norm the distance is symmetric. */
  lemma DistanceSymmetric(p: Vec, q: Vec, norm: Vec -> real)
    requires IsNorm(norm)
    ensures Distance(p, q, norm) == Distance(q, p, norm)
  {
    SubAntisymmetric(p, q);
    NormNeg(norm, Sub(q, p));
  }

  /** The potential term body `i` gets from body `j` is the one `j` gets from
      `i`: `calc_qts` counts every pair once for each of its two bodies. */
  lemma PotentialTermSymmetric(bs: seq<Body>, i: nat, j: nat, norm: Vec -> real)
    requires IsNorm(norm) && i < |bs| && j < |bs| && i != j
    requires Distance(bs[i].position, bs[j].position, norm) != 0.0
    ensures Distance(bs[j].position, bs[i].position, norm) != 0.0
    ensures (bs[i].mass * bs[j].mass) / Distance(bs[i].position, bs[j].position, norm) ==
            (bs[j].mass * bs[i].mass) / Distance(bs[j].position, bs[i].position, norm)
  {
    DistanceSymmetric(bs[i].position, bs[j].position, norm);
  }

  /** A product of non-negative reals is non-negative. */
  lemma MulNonNegative(x: real, y: real)
    requires x >= 0.0 && y >= 0.0
    ensures x * y >= 0.0
  {
  }

  /** A non-negative real divided by a positive one is non-negative. */
  lemma DivNonNegative(x: real, y: real)
    requires x >= 0.0 && y > 0.0
    ensures x / y >= 0.0
  {
  }

  /** With non-negative masses and a true norm, the potential energy summed
      by `calc_qts` is never positive. */
  lemma {:induction false} PotentialNonPositive(bs: seq<Body>, i: nat, k: nat, norm: Vec -> real)
    requires i < |bs| && k <= |bs| && !bs[i].isSun && DiagnosticsDefined(bs, norm)
    requires IsNorm(norm) && forall j :: 0 <= j < |bs| ==> bs[j].mass >= 0.0
    ensures PotentialEnergy(bs, i, k, norm) <= 0.0
  {
    if k > 0 {
      PotentialNonPositive(bs, i, k - 1, norm);
      if k - 1 != i {
        var d := Distance(bs[i].position, bs[k - 1].position, norm);
        assert d >= 0.0 && d != 0.0;
        MulNonNegative(bs[i].mass, bs[k - 1].mass);
        DivNonNegative(bs[i].mass * bs[k - 1].mass, d);
      }
    }
  }

  /** With a true norm, `kinetic_energy` is `m |v|^2 / 2`. */
  lemma KineticEnergySpec(b: Body, norm: Vec -> real)
    requires IsNorm(norm)
    ensures KineticEnergy(b, norm) == 0.5 * b.mass * Dot(b.velocity, b.velocity)
  {
    assert norm(b.velocity) * norm(b.velocity) == Dot(b.velocity, b.velocity);
  }

  /** `kinetic_energy` is not negative for a non-negative mass, whatever the
      norm returns. */
  lemma KineticEnergyNonNegative(b: Body, norm: Vec -> real)
    requires b.mass >= 0.0
    ensures KineticEnergy(b, norm) >= 0.0
  {
    var n := norm(b.velocity);
    SquarePositive(n);
    MulNonNegative(0.5 * b.mass, n * n);
  }

  /** The diagnostics of a planet: the angular momentum `r x v` is orthogonal
      to position and velocity, the kinetic energy is not negative for a
      non-negative mass, and the total is kinetic plus potential. */
  lemma DiagnosticsSpec(bs: seq<Body>, i: nat, norm: Vec -> real)
    requires i < |bs| && !bs[i].isSun && DiagnosticsDefined(bs, norm)
    ensures var d := DiagnosticsOf(bs, i, norm);
            Dot(d.angMoment, bs[i].position) == 0.0 && Dot(d.angMoment, bs[i].velocity) == 0.0 &&
            (bs[i].mass >= 0.0 ==> d.kineticEnergy >= 0.0) &&
            d.totEnergy == d.potEnergy + d.kineticEnergy
  {
    CrossOrthogonal(bs[i].position, bs[i].velocity);
    if bs[i].mass >= 0.0 {
      KineticEnergyNonNegative(bs[i], norm);
    }
  }
}

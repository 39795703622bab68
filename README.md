# Solar-system engine, modelled and proved in Dafny

This project models the simulation core of a small N-body solar-system
program. A `SolarSys` object holds a list of bodies (`Planet`s and `Sun`s),
an integrator name ("Euler" or "Leapfrog") and a time increment. Each call of
`step` or `step_no_planet_interact` advances every body by one time step and
then recomputes each planet's diagnostics: angular momentum and kinetic,
potential and total energy.

The model has three modules:

- `Vectors` (`vectors.dfy`): exact 3-vectors over `real`, the part of numpy
  the engine uses. The Euclidean norm needs a square root, which `real` does
  not have. So every operation that measures a distance takes the norm as a
  parameter `norm: Vec -> real`. Lemmas that need it to be a true norm
  assume `IsNorm(norm)`: the norm is non-negative and its square is `v · v`.
- `Physics` (`physics.dfy`): the same operations stated on values.
  - `Moved` is `update_position` and `Gravity` is `gravity`.
  - `FullInteraction` and `SunOnlyInteraction` are the two interactions.
  - `Advance` is the kinematic part of a step, for either integrator and
    either topology.
  - `DiagnosticsOf` is what `calc_qts` writes.
  - The properties the engine promises are proved as lemmas about these
    functions.
- `SolarSysClass` (`solarsys.dfy`): the program's own objects.
  - `Planet` is a class whose position, velocity and diagnostic fields are
    updated in place. A `Sun` is a `Planet` built with the `Sun` constructor
    (`isSun` true). Its `UpdatePosition` leaves it where it is.
  - `SolarSys` holds `planets: seq<Planet>`.
  - Every method is proved to leave the objects in the state that the
    matching `Physics` function gives.
  - The loops of the source are loops here. The inner loops of
    `planet_interaction` and `calc_qts`, and the `update_position` loop of
    the step methods, are separate methods (`PullOn`, `SumPotential`,
    `UpdatePositions`).

Decisions:

- **Which body is the sun.** In the sun-only interaction, the code scans the
  whole list and keeps the index of the *last* `Sun`, or 0 when there is none
  (SolarSysClass.py:106-109). Note that this is the *last* `Sun` in the list,
  not the first. When there is no `Sun`, body 0
  pulls the others but is itself an ordinary planet that keeps drifting.
  `LeapfrogPlanetAsSun` proves this.
- **The inverse square.** `m / d**2` is written `m / d / d`. On the reals
  this is the same number.
- **Coincident bodies.** A division by a zero distance gives NaN or infinity
  in the program. The reals have neither, so each division carries a
  precondition that the distance is non-zero:
  - `Separated` for the full interaction;
  - `SunSeparated` for the sun-only one;
  - `DiagnosticsDefined` for `calc_qts`.
- **Order of the nested loop.** `planet_interaction` updates bodies one
  after another. `PlanetInteraction` is proved to end in the simultaneous
  `FullInteraction`, by `KickedVelocityFrame`. `KicksCommute` shows that any
  two kicks can be swapped.

## Model

| member | source | states |
|---|---|---|
| SolarSysClass.SolarSys.constructor | SolarSysClass.py:8-20 | a new system keeps its integrator name and time step and holds no bodies |
| SolarSysClass.SolarSys.AddPlanet | SolarSysClass.py:57-59 | the body is appended at the end of the list; nothing else changes |
| SolarSysClass.Planet.constructor | SolarSysClass.py:130-148 | a new planet has the given mass, position and velocity, is not a sun, has zero diagnostics, and is appended to its system's list |
| SolarSysClass.Planet.Sun | SolarSysClass.py:176-185 | a new sun (mass 1000 by default) is appended the same way, is a sun, and has zero diagnostics |
| SolarSysClass.Planet.UpdatePosition | SolarSysClass.py:162-164 | a planet moves by velocity times dT; a sun (SolarSysClass.py:187-189) stays put; only the position field may change |
| SolarSysClass.Planet.Gravity | SolarSysClass.py:166-172 | only this body's velocity changes, by `(m_other / d^2) * direction * dT`; the other body is only read |
| SolarSysClass.SolarSys.UpdatePositions | SolarSysClass.py:25-26 | after the loop every body is where `update_position` puts it, and diagnostics are untouched |
| SolarSysClass.SolarSys.PlanetInteraction | SolarSysClass.py:98-103 | the sequential double loop ends in the simultaneous full interaction: each velocity gains the kicks of all other bodies; positions and diagnostics unchanged |
| SolarSysClass.SolarSys.PullOn | SolarSysClass.py:101-103 | the inner loop adds to body i the kick of every other body in list order and changes no other velocity |
| SolarSysClass.SolarSys.FindSunIndex | SolarSysClass.py:106-109 | the index found is a sun with no sun after it when the list has a sun, and 0 otherwise |
| SolarSysClass.SolarSys.SunIndexFound | SolarSysClass.py:106-109 | any index with the properties `FindSunIndex` promises is the one `SunIndex` defines |
| SolarSysClass.SolarSys.InteractionSunOnly | SolarSysClass.py:105-112 | every body other than the chosen sun is kicked once, by the sun; the sun, positions and diagnostics stay |
| SolarSysClass.SolarSys.CalcQts | SolarSysClass.py:114-124 | bodies are not moved; suns keep their diagnostics; every planet gets angular momentum `r x v`, kinetic `m |v|^2 / 2`, potential `-sum m_i m_j / d_ij` and total = potential + kinetic |
| SolarSysClass.SolarSys.SumPotential | SolarSysClass.py:119-123 | the inner loop leaves the potential energy at minus the sum over all other bodies of `m_i m_j / d_ij` |
| SolarSysClass.SolarSys.Step | SolarSysClass.py:23-38 | the bodies end in the state `Advance` gives for the chosen integrator with full interaction (unchanged for an unknown name); then suns have zero diagnostics and planets the ones `calc_qts` computes |
| SolarSysClass.SolarSys.StepNoPlanetInteract | SolarSysClass.py:40-55 | the same with the sun-only interaction |
| Physics.Moved | SolarSysClass.py:162-164 | `update_position` keeps mass, velocity and role, and a sun (SolarSysClass.py:187-189) is returned unchanged |
| Physics.MovedSpec | SolarSysClass.py:162-164 | a planet is displaced by exactly velocity times dT |
| Physics.MovedTwice | SolarSysClass.py:29-36 | two drifts of dT1 and dT2 are one drift of dT1 + dT2, so Leapfrog's two half drifts of an unkicked body are one whole drift |
| Physics.AccelAlongSeparation | SolarSysClass.py:166-172 | the kick points along the separation from the body to its source, scaled by `m_src * dT / d^3` |
| Physics.Gravity | SolarSysClass.py:166-172 | `gravity` keeps position, mass and role, and changes the velocity by exactly the kick `Accel` (whose direction and size `AccelAlongSeparation` states) |
| Physics.Drift | SolarSysClass.py:25-26 | the `update_position` loop keeps the number of bodies and every velocity |
| Physics.DriftKeepsSuns | SolarSysClass.py:25-26 | the `update_position` loop keeps every mass and role, and no sun moves |
| Physics.KickedVelocityFrame | SolarSysClass.py:100-103 | the velocity the inner loop gives a body depends only on positions, masses and its own velocity, not on the other velocities the outer loop has already changed |
| Physics.KickedVelocityIsSum | SolarSysClass.py:101-103 | kicking one after another (`KickedVelocity`) gives the old velocity plus the sum of the kicks |
| Physics.KickAt | SolarSysClass.py:101-103 | one kick keeps every position and mass in the list |
| Physics.KicksCommute | SolarSysClass.py:100-103 | any two kicks of the nested loop can be swapped without changing the result |
| Physics.FullInteraction | SolarSysClass.py:98-103 | the full interaction returns one body per body; its content is stated by `FullInteractionSpec` |
| Physics.FullInteractionSpec | SolarSysClass.py:98-103 | the full interaction keeps positions, masses and roles and adds to each velocity the sum of the kicks from all other bodies |
| Physics.ThirdLaw | SolarSysClass.py:166-172 | with a true norm, the kick a gets from b times a's mass is the opposite of the kick b gets from a times b's mass |
| Physics.TwoBodyMomentum | SolarSysClass.py:98-103 | for two bodies the full interaction conserves momentum: `m0 dv0 + m1 dv1 = 0` |
| Physics.LastSunBeforeSpec | SolarSysClass.py:106-109 | the index `LastSunBefore` chooses lies in the list; it is a sun with no later sun when there is a sun, and 0 when there is none |
| Physics.SunIndex | SolarSysClass.py:106-109 | the chosen sun index lies within a non-empty list |
| Physics.LastSunBeforeRoles | SolarSysClass.py:106-109 | which body is chosen as the sun depends only on which bodies are suns |
| Physics.SunOnlyInteraction | SolarSysClass.py:105-112 | the sun-only interaction returns one body per body; its content is stated by `SunOnlyInteractionSpec` |
| Physics.SunOnlyInteractionSpec | SolarSysClass.py:105-112 | the chosen sun is untouched; every other body keeps position, mass and role and its velocity gains exactly the sun's kick |
| Physics.InteractKeeps | SolarSysClass.py:98-112 | neither interaction moves a body or changes its mass or role |
| Physics.Advance | SolarSysClass.py:23-55 | a step returns one body per body; `EulerShape`, `LeapfrogShape` and `AdvanceKeepsSuns` state what it does to each |
| Physics.AdvanceKeepsSuns | SolarSysClass.py:187-189 | for any integrator and topology, a step keeps every mass and role and never moves a sun |
| Physics.AdvanceUnknownIntegrator | SolarSysClass.py:23-38 | an integrator name other than "Euler" and "Leapfrog" leaves every body unchanged |
| Physics.EulerShape | SolarSysClass.py:24-27 | an Euler step moves a planet with its pre-step velocity and then adds the kicks computed at the moved positions |
| Physics.LeapfrogShape | SolarSysClass.py:29-36 | a Leapfrog step moves a planet half a step with its old velocity and half a step with its new one; the new velocity is the kick at the half-step positions |
| Physics.LeapfrogPlanetAsSun | SolarSysClass.py:105-112 | with no `Sun` in the list, body 0 is the attractor, is never kicked, and under Leapfrog drifts one whole step |
| Physics.SunOnlyPair | SolarSysClass.py:110-112 | in the sun-only interaction a planet gets the kick it would get in a system of the sun and itself alone |
| Physics.SunOnlyIndependent | SolarSysClass.py:40-55 | one sun-only step of a planet, and of the chosen sun, equals their step in the two-body system of the sun and that planet, under either integrator |
| Physics.AdvanceSteps | SolarSysClass.py:23-55 | `k` successive steps keep the number of bodies |
| Physics.AdvanceStepsKeepSuns | SolarSysClass.py:187-189 | however many steps are taken, masses and roles stay and no sun moves |
| Physics.SunOnlyTrajectory | SolarSysClass.py:40-55 | after any number `k` of sun-only steps, a planet and the chosen sun are where `k` steps of the two-body system of the sun and that planet put them |
| Physics.PotentialTermSymmetric | SolarSysClass.py:120-123 | the potential term body i gets from j equals the one j gets from i, so each pair is counted once per body |
| Physics.PotentialNonPositive | SolarSysClass.py:119-123 | with non-negative masses and a true norm the potential energy `PotentialEnergy` is never positive |
| Physics.KineticEnergySpec | SolarSysClass.py:118 | with a true norm the kinetic energy `KineticEnergy` is `m (v · v) / 2` |
| Physics.KineticEnergyNonNegative | SolarSysClass.py:118 | the kinetic energy of a body of non-negative mass is not negative |
| Physics.DiagnosticsSpec | SolarSysClass.py:114-124 | in the diagnostics `DiagnosticsOf` gives, a planet's angular momentum is orthogonal to its position and velocity, its kinetic energy is not negative for a non-negative mass, and its total energy is kinetic plus potential |

## Left out

- Plotting is not modelled: the figure and axes, `plot_planets` apart from its
  call of `calc_qts`, `fix_axes`, `add_to_plot`, `add_velocity_marker`, the
  text boxes, `color`, `mksize`, `lim` and `N_DIM`. These only draw.
- SimulationApp.py is not part of this model. It builds the bodies and drives
  the animation loop.
- Floating point is not modelled: positions, velocities and energies are exact
  reals. Rounding, overflow, and the NaN or infinity that numpy gives for two
  coincident bodies are excluded by the distance preconditions.
- The Euclidean norm is a parameter, not a definition, because `real` has no
  square root. Only the lemmas that assume `IsNorm` rely on what a norm is.
- numpy array aliasing is not modelled: vectors are values. In the program,
  `update_position` and `gravity` update arrays in place (`+=`), and the
  default `np.zeros(3)` arguments of `Planet` and `Sun` are created once and
  shared. So bodies built without an explicit position or velocity share one
  array, and moving one moves them all. The model gives every body its own
  vectors.
- The Python class hierarchy (`Sun` a subclass of `Planet`) is modelled as one
  class with a constant `isSun` and two constructors. `isinstance(planet, Sun)`
  becomes `isSun`, and the overridden `update_position` becomes the branch on
  `isSun`.
- The planet's back-reference to its system is a constant field `sys`. The
  model does not let a planet join a second system.
- The step methods take the norm as a parameter and require that no division
  by zero occurs during the step and in the diagnostics that follow. The
  program has no such check.

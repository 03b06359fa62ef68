/** The particle swarm optimiser (`Particle` and `PSO`).

    Every random draw of the program is an input here: the unit positions
    and the velocities a particle starts from, and one (r1, r2) pair per
    particle per iteration. The objects and loops of the optimiser are proved
    against a reference run, `Run`, built from `Step`, `Evaluate` and `Move`;
    the lemmas at the end state what holds of every such run. */
module Swarm {
  import opened Coverage

  datatype Option<T> = None | Some(value: T)

  /** The fixed weights of the velocity update. */
  const Inertia: real := 0.5
  const Cognitive: real := 1.5
  const Social: real := 1.5

  /** The module constants of the program and its probability map. */
  datatype Config = Config(mapa: seq<seq<real>>, areaSize: real, radioDeteccion: real, numDrones: nat)

  predicate ValidConfig(c: Config) {
    IsSquare(c.mapa) && c.areaSize > 0.0 && NonNegative(c.mapa)
  }

  /** The pair of uniform draws `np.random.rand()` gives one particle in one
      iteration, shared by all its coordinates. */
  datatype Draw = Draw(r1: real, r2: real)

  /** The value of a particle's four fields. */
  datatype PState = PState(position: seq<Point>, velocity: seq<Point>, bestPosition: seq<Point>, bestScore: real)

  /** `global_best_score` and `global_best_position` (None until first set). */
  datatype Global = Global(score: real, position: Option<seq<Point>>)

  datatype SwarmState = SwarmState(particles: seq<PState>, global: Global)

  /** The score `fitness` gives a placement under this configuration. */
  function Score(c: Config, pos: seq<Point>): (r: real)
    requires ValidConfig(c)
    ensures 0.0 <= r <= GridSum(c.mapa)
  {
    CoverageBounds(pos, c.mapa, c.areaSize, c.radioDeteccion);
    CoveredMass(pos, c.mapa, c.areaSize, c.radioDeteccion)
  }

  predicate InArea(areaSize: real, pos: seq<Point>) {
    forall k :: 0 <= k < |pos| ==> 0.0 <= pos[k].x <= areaSize && 0.0 <= pos[k].y <= areaSize
  }

  predicate UnitDraws(u: seq<Point>) {
    forall k :: 0 <= k < |u| ==> 0.0 <= u[k].x < 1.0 && 0.0 <= u[k].y < 1.0
  }

  predicate Shaped(d: nat, p: PState) {
    |p.position| == d && |p.velocity| == d && |p.bestPosition| == d
  }

  // ---------------------------------------------------------------------
  // Initialisation

  /** `np.random.rand(NUM_DRONES, 2) * AREA_SIZE`, with the draws supplied. */
  function Scaled(u: seq<Point>, areaSize: real): (r: seq<Point>)
    ensures |r| == |u|
  {
    seq(|u|, k requires 0 <= k < |u| => Point(u[k].x * areaSize, u[k].y * areaSize))
  }

  /** A fresh particle: its best position is a copy of its position and its
      best score the sentinel -1. */
  function InitialState(u: seq<Point>, velocity: seq<Point>, areaSize: real): PState {
    PState(Scaled(u, areaSize), velocity, Scaled(u, areaSize), -1.0)
  }

  function InitialSwarm(units: seq<seq<Point>>, velocities: seq<seq<Point>>, areaSize: real): (ps: seq<PState>)
    requires |units| == |velocities|
    ensures |ps| == |units|
  {
    seq(|units|, q requires 0 <= q < |units| => InitialState(units[q], velocities[q], areaSize))
  }

  /** The swarm before the first iteration: no global best yet, score -1. */
  function Start(c: Config, units: seq<seq<Point>>, velocities: seq<seq<Point>>): SwarmState
    requires |units| == |velocities|
  {
    SwarmState(InitialSwarm(units, velocities, c.areaSize), Global(-1.0, None))
  }

  // ---------------------------------------------------------------------
  // The evaluation phase

  /** The personal-best update: replaced only on a strictly greater score. */
  function Remember(p: PState, score: real): PState {
    if score > p.bestScore then p.(bestScore := score, bestPosition := p.position) else p
  }

  /** The global-best update: replaced only on a strictly greater score. */
  function Promote(g: Global, pos: seq<Point>, score: real): Global {
    if score > g.score then Global(score, Some(pos)) else g
  }

  /** The evaluation phase over the particles in order. Each particle's
      personal best depends only on its own score (EvaluateGlobal states what
      becomes of the global best). */
  function Evaluate(c: Config, ps: seq<PState>, g: Global): (r: SwarmState)
    requires ValidConfig(c)
    ensures |r.particles| == |ps|
    ensures forall q :: 0 <= q < |ps| ==> r.particles[q] == Remember(ps[q], Score(c, ps[q].position))
    decreases |ps|
  {
    if |ps| == 0 then SwarmState([], g)
    else
      var n := |ps| - 1;
      var e := Evaluate(c, ps[..n], g);
      var score := Score(c, ps[n].position);
      SwarmState(e.particles + [Remember(ps[n], score)], Promote(e.global, ps[n].position, score))
  }

  /** After the evaluation phase the global best score is at least the old
      one and at least every particle's score; when it changed, it is the
      score and position of the first particle, in swarm order, that reached
      the new maximum (ties keep the earlier best). */
  lemma {:induction false} EvaluateGlobal(c: Config, ps: seq<PState>, g: Global)
    requires ValidConfig(c)
    ensures var r := Evaluate(c, ps, g).global;
      r.score >= g.score &&
      (forall q :: 0 <= q < |ps| ==> Score(c, ps[q].position) <= r.score) &&
      (r == g ||
       (r.score > g.score &&
        exists q :: 0 <= q < |ps| && r == Global(Score(c, ps[q].position), Some(ps[q].position)) &&
          forall p :: 0 <= p < q ==> Score(c, ps[p].position) < r.score))
    decreases |ps|
  {
    if |ps| > 0 {
      var n := |ps| - 1;
      EvaluateGlobal(c, ps[..n], g);
      var prev := Evaluate(c, ps[..n], g).global;
      var score := Score(c, ps[n].position);
      assert Evaluate(c, ps, g).global == Promote(prev, ps[n].position, score);
      forall q | 0 <= q < n ensures ps[..n][q] == ps[q] { }
      if score > prev.score {
        forall p | 0 <= p < n ensures Score(c, ps[p].position) < score {
          assert Score(c, ps[..n][p].position) <= prev.score;
        }
      } else if prev != g {
        var q :| 0 <= q < n && prev == Global(Score(c, ps[..n][q].position), Some(ps[..n][q].position)) &&
          forall p :: 0 <= p < q ==> Score(c, ps[..n][p].position) < prev.score;
        assert forall p :: 0 <= p < q ==> Score(c, ps[p].position) < prev.score;
      }
    }
  }

  /** Evaluating one more particle only compares its score with the global
      best so far. */
  lemma EvaluateLast(c: Config, ps: seq<PState>, g: Global)
    requires ValidConfig(c) && |ps| > 0
    ensures var n := |ps| - 1;
      Evaluate(c, ps, g).global == Promote(Evaluate(c, ps[..n], g).global, ps[n].position, Score(c, ps[n].position))
  {
  }

  // ---------------------------------------------------------------------
  // The update phase

  /** One coordinate of `0.5*v + 1.5*r1*(best - pos) + 1.5*r2*(gbest - pos)`. */
  function Pull(v: real, pos: real, best: real, gbest: real, d: Draw): real {
    Inertia * v + Cognitive * d.r1 * (best - pos) + Social * d.r2 * (gbest - pos)
  }

  /** The new velocity: one (r1, r2) pair for every coordinate of the particle. */
  function NewVelocity(velocity: seq<Point>, position: seq<Point>, bestPosition: seq<Point>, gbest: seq<Point>, d: Draw): (v: seq<Point>)
    requires |position| == |velocity| && |bestPosition| == |velocity| && |gbest| == |velocity|
    ensures |v| == |velocity|
    // a drone already at its own best and at the global best only keeps inertia
    ensures forall k :: 0 <= k < |velocity| && position[k] == bestPosition[k] && position[k] == gbest[k] ==>
      v[k] == Point(Inertia * velocity[k].x, Inertia * velocity[k].y)
    // with both draws zero, only inertia is left for every drone
    ensures d.r1 == 0.0 && d.r2 == 0.0 ==>
      forall k :: 0 <= k < |velocity| ==> v[k] == Point(Inertia * velocity[k].x, Inertia * velocity[k].y)
  {
    seq(|velocity|, k requires 0 <= k < |velocity| =>
      Point(Pull(velocity[k].x, position[k].x, bestPosition[k].x, gbest[k].x, d),
            Pull(velocity[k].y, position[k].y, bestPosition[k].y, gbest[k].y, d)))
  }

  /** `np.clip(c, 0, hi)`: a hard clamp. */
  function Clip(c: real, hi: real): (r: real)
    requires hi >= 0.0
    ensures 0.0 <= r <= hi
    ensures 0.0 <= c <= hi ==> r == c
    ensures c < 0.0 ==> r == 0.0
    ensures c > hi ==> r == hi
  {
    if c < 0.0 then 0.0 else if c > hi then hi else c
  }

  /** `np.clip(position + velocity, 0, AREA_SIZE)`. */
  function Advance(position: seq<Point>, velocity: seq<Point>, areaSize: real): (r: seq<Point>)
    requires |velocity| == |position| && areaSize >= 0.0
    ensures |r| == |position| && InArea(areaSize, r)
  {
    seq(|position|, k requires 0 <= k < |position| =>
      Point(Clip(position[k].x + velocity[k].x, areaSize), Clip(position[k].y + velocity[k].y, areaSize)))
  }

  /** The update of one particle: only its velocity and position change. */
  function Move(c: Config, p: PState, gbest: seq<Point>, d: Draw): (r: PState)
    requires ValidConfig(c) && Shaped(c.numDrones, p) && |gbest| == c.numDrones
    ensures Shaped(c.numDrones, r) && InArea(c.areaSize, r.position)
    ensures r.bestPosition == p.bestPosition && r.bestScore == p.bestScore
  {
    var v := NewVelocity(p.velocity, p.position, p.bestPosition, gbest, d);
    PState(Advance(p.position, v, c.areaSize), v, p.bestPosition, p.bestScore)
  }

  function MoveAll(c: Config, ps: seq<PState>, gbest: seq<Point>, ds: seq<Draw>): (r: seq<PState>)
    requires ValidConfig(c) && |ds| == |ps| && |gbest| == c.numDrones
    requires forall q :: 0 <= q < |ps| ==> Shaped(c.numDrones, ps[q])
    ensures |r| == |ps|
  {
    seq(|ps|, q requires 0 <= q < |ps| => Move(c, ps[q], gbest, ds[q]))
  }

  // ---------------------------------------------------------------------
  // Whole iterations

  /** Shapes agree with NUM_DRONES, and no global position means the
      sentinel score is still in place. */
  predicate WellFormed(c: Config, s: SwarmState) {
    (forall q :: 0 <= q < |s.particles| ==> Shaped(c.numDrones, s.particles[q])) &&
    (s.global.position.None? ==> s.global.score < 0.0) &&
    (s.global.position.Some? ==> |s.global.position.value| == c.numDrones)
  }

  /** One iteration: the evaluation phase, then the update phase, which
      reads the global best that the whole evaluation phase produced. */
  function Step(c: Config, s: SwarmState, ds: seq<Draw>): (r: SwarmState)
    requires ValidConfig(c) && WellFormed(c, s) && |ds| == |s.particles|
    ensures WellFormed(c, r) && |r.particles| == |s.particles|
  {
    var e := Evaluate(c, s.particles, s.global);
    if |s.particles| == 0 then e
    else
      EvaluateGlobal(c, s.particles, s.global);
      assert e.global.score >= 0.0 by {
        assert Score(c, s.particles[0].position) <= e.global.score;
      }
      SwarmState(MoveAll(c, e.particles, e.global.position.value, ds), e.global)
  }

  /** `MAX_ITER` iterations, one row of draws per iteration. */
  function Run(c: Config, s: SwarmState, draws: seq<seq<Draw>>): (r: SwarmState)
    requires ValidConfig(c) && WellFormed(c, s)
    requires forall t :: 0 <= t < |draws| ==> |draws[t]| == |s.particles|
    ensures WellFormed(c, r) && |r.particles| == |s.particles|
    decreases |draws|
  {
    if |draws| == 0 then s
    else
      var n := |draws| - 1;
      Step(c, Run(c, s, draws[..n]), draws[n])
  }

  // ---------------------------------------------------------------------
  // The objects and loops of the program

  class Particle {
    var position: seq<Point>
    var velocity: seq<Point>
    var bestPosition: seq<Point>
    var bestScore: real

    /** `Particle()`, with the random position draws `u` (in [0,1)) and
        velocity draws supplied. */
    constructor (u: seq<Point>, velocity0: seq<Point>, areaSize: real)
      ensures State() == InitialState(u, velocity0, areaSize)
    {
      position := Scaled(u, areaSize);
      velocity := velocity0;
      bestPosition := Scaled(u, areaSize);
      bestScore := -1.0;
    }

    function State(): PState
      reads this
    {
      PState(position, velocity, bestPosition, bestScore)
    }
  }

  predicate Distinct(swarm: seq<Particle>) {
    forall p, q :: 0 <= p < |swarm| && 0 <= q < |swarm| && p != q ==> swarm[p] != swarm[q]
  }

  /** One pass of the first inner loop: score the particle, then update its
      personal best and the global best, each on a strictly greater score. */
  method EvaluateParticle(c: Config, particle: Particle, globalBestScore0: real, globalBestPosition0: Option<seq<Point>>)
    returns (globalBestScore: real, globalBestPosition: Option<seq<Point>>)
    requires ValidConfig(c)
    modifies particle
    ensures var score := Score(c, old(particle.position));
      particle.State() == Remember(old(particle.State()), score) &&
      Global(globalBestScore, globalBestPosition) == Promote(Global(globalBestScore0, globalBestPosition0), old(particle.position), score)
  {
    globalBestScore, globalBestPosition := globalBestScore0, globalBestPosition0;
    var score := Fitness(particle.position, c.mapa, c.areaSize, c.radioDeteccion);
    if score > particle.bestScore {
      particle.bestScore := score;
      particle.bestPosition := particle.position;
    }
    if score > globalBestScore {
      globalBestScore := score;
      globalBestPosition := Some(particle.position);
    }
  }

  /** The first inner loop of `PSO`: score every particle, update its
      personal best and the global best. */
  method EvaluationPhase(c: Config, swarm: seq<Particle>, globalBestScore0: real, globalBestPosition0: Option<seq<Point>>,
                         ghost ps: seq<PState>)
    returns (globalBestScore: real, globalBestPosition: Option<seq<Point>>)
    requires ValidConfig(c) && Distinct(swarm) && |ps| == |swarm|
    requires forall q :: 0 <= q < |swarm| ==> swarm[q].State() == ps[q]
    modifies set q | q in swarm
    ensures var e := Evaluate(c, ps, Global(globalBestScore0, globalBestPosition0));
      Global(globalBestScore, globalBestPosition) == e.global &&
      forall q :: 0 <= q < |swarm| ==> swarm[q].State() == e.particles[q]
  {
    ghost var g0 := Global(globalBestScore0, globalBestPosition0);
    ghost var e := Evaluate(c, ps, g0).particles;
    globalBestScore, globalBestPosition := globalBestScore0, globalBestPosition0;
    for p := 0 to |swarm|
      invariant Global(globalBestScore, globalBestPosition) == Evaluate(c, ps[..p], g0).global
      invariant forall q :: 0 <= q < p ==> swarm[q].State() == e[q]
      invariant forall q :: p <= q < |swarm| ==> swarm[q].State() == ps[q]
    {
      globalBestScore, globalBestPosition := EvaluateParticle(c, swarm[p], globalBestScore, globalBestPosition);
      assert swarm[p].State() == e[p];
      EvaluateLast(c, ps[..p + 1], g0);
      PrefixOfPrefix(ps, p + 1, p);
    }
    assert ps[..|swarm|] == ps;
  }

  /** The second inner loop of `PSO`: move every particle towards its own
      best and the global best, then clamp it into the area. */
  method UpdatePhase(c: Config, swarm: seq<Particle>, globalBestPosition: Option<seq<Point>>, draws: seq<Draw>,
                     ghost ps: seq<PState>)
    requires ValidConfig(c) && Distinct(swarm) && |ps| == |swarm| == |draws|
    requires forall q :: 0 <= q < |swarm| ==> swarm[q].State() == ps[q] && Shaped(c.numDrones, ps[q])
    requires |swarm| > 0 ==> globalBestPosition.Some? && |globalBestPosition.value| == c.numDrones
    modifies set q | q in swarm
    ensures forall q :: 0 <= q < |swarm| ==> swarm[q].State() == Move(c, ps[q], globalBestPosition.value, draws[q])
  {
    for p := 0 to |swarm|
      invariant forall q :: 0 <= q < p ==> swarm[q].State() == Move(c, ps[q], globalBestPosition.value, draws[q])
      invariant forall q :: p <= q < |swarm| ==> swarm[q].State() == ps[q]
    {
      var particle := swarm[p];
      particle.velocity := NewVelocity(particle.velocity, particle.position, particle.bestPosition,
                                       globalBestPosition.value, draws[p]);
      particle.position := Advance(particle.position, particle.velocity, c.areaSize);
    }
  }

  /** One pass of the `for _ in range(MAX_ITER)` loop: the evaluation phase,
      then the update phase with the global best it produced. */
  method Iteration(c: Config, swarm: seq<Particle>, globalBestScore0: real, globalBestPosition0: Option<seq<Point>>,
                   ds: seq<Draw>, ghost s: SwarmState)
    returns (globalBestScore: real, globalBestPosition: Option<seq<Point>>)
    requires ValidConfig(c) && WellFormed(c, s) && Distinct(swarm)
    requires |s.particles| == |swarm| == |ds| && s.global == Global(globalBestScore0, globalBestPosition0)
    requires forall q :: 0 <= q < |swarm| ==> swarm[q].State() == s.particles[q]
    modifies set q | q in swarm
    ensures Step(c, s, ds).global == Global(globalBestScore, globalBestPosition)
    ensures forall q :: 0 <= q < |swarm| ==> swarm[q].State() == Step(c, s, ds).particles[q]
  {
    globalBestScore, globalBestPosition := EvaluationPhase(c, swarm, globalBestScore0, globalBestPosition0, s.particles);
    ghost var e := Evaluate(c, s.particles, s.global);
    EvaluateGlobal(c, s.particles, s.global);
    if |swarm| > 0 {
      assert globalBestScore >= 0.0 by {
        assert Score(c, s.particles[0].position) <= e.global.score;
      }
    }
    UpdatePhase(c, swarm, globalBestPosition, ds, e.particles);
  }

  /** `[Particle() for _ in range(PARTICULAS)]`: one new particle per pair
      of initial draws. */
  method NewSwarm(units: seq<seq<Point>>, velocities: seq<seq<Point>>, areaSize: real) returns (swarm: seq<Particle>)
    requires |units| == |velocities|
    ensures |swarm| == |units| && Distinct(swarm)
    ensures forall q :: 0 <= q < |swarm| ==>
      fresh(swarm[q]) && swarm[q].State() == InitialState(units[q], velocities[q], areaSize)
  {
    swarm := [];
    for q := 0 to |units|
      invariant |swarm| == q && Distinct(swarm)
      invariant forall r :: 0 <= r < q ==>
        fresh(swarm[r]) && swarm[r].State() == InitialState(units[r], velocities[r], areaSize)
    {
      var particle := new Particle(units[q], velocities[q], areaSize);
      swarm := swarm + [particle];
    }
  }

  /** `PSO()`: `particulas` particles, `maxIter` iterations, returning the
      global best pair accumulated over the whole run. */
  method Pso(c: Config, particulas: nat, maxIter: nat,
             units: seq<seq<Point>>, velocities: seq<seq<Point>>, draws: seq<seq<Draw>>)
    returns (globalBestPosition: Option<seq<Point>>, globalBestScore: real)
    requires ValidConfig(c)
    requires |units| == particulas && |velocities| == particulas
    requires forall q :: 0 <= q < particulas ==>
      |units[q]| == c.numDrones && |velocities[q]| == c.numDrones && UnitDraws(units[q])
    requires |draws| == maxIter && forall t :: 0 <= t < maxIter ==> |draws[t]| == particulas
    ensures Global(globalBestScore, globalBestPosition) == Run(c, Start(c, units, velocities), draws).global
    ensures maxIter == 0 || particulas == 0 ==> globalBestPosition == None && globalBestScore == -1.0
    ensures maxIter > 0 && particulas > 0 ==>
      globalBestPosition.Some? && |globalBestPosition.value| == c.numDrones &&
      InArea(c.areaSize, globalBestPosition.value) &&
      globalBestScore == Score(c, globalBestPosition.value) &&
      0.0 <= globalBestScore <= GridSum(c.mapa) &&
      forall q :: 0 <= q < particulas ==> Score(c, Scaled(units[q], c.areaSize)) <= globalBestScore
  {
    var swarm := NewSwarm(units, velocities, c.areaSize);
    globalBestPosition := None;
    globalBestScore := -1.0;

    ghost var start := Start(c, units, velocities);
    InitialSound(c, units, velocities);
    ghost var s := start;
    for t := 0 to maxIter
      invariant s == Run(c, start, draws[..t])
      invariant s.global == Global(globalBestScore, globalBestPosition)
      invariant |s.particles| == |swarm| && Distinct(swarm)
      invariant forall q :: 0 <= q < |swarm| ==> fresh(swarm[q]) && swarm[q].State() == s.particles[q]
    {
      globalBestScore, globalBestPosition := Iteration(c, swarm, globalBestScore, globalBestPosition, draws[t], s);
      s := Step(c, s, draws[t]);
      PrefixOfPrefix(draws, t + 1, t);
    }
    assert draws[..maxIter] == draws;
    RunResult(c, units, velocities, draws);
  }

  // ---------------------------------------------------------------------
  // Properties of every run

  /** What holds of the swarm after every iteration: positions and best
      positions inside the area, every personal best below the global best,
      and every recorded best score the true score of its position (or the
      sentinel -1 for a particle not yet evaluated). */
  predicate Sound(c: Config, s: SwarmState)
    requires ValidConfig(c)
  {
    (forall q :: 0 <= q < |s.particles| ==>
       InArea(c.areaSize, s.particles[q].position) && InArea(c.areaSize, s.particles[q].bestPosition) &&
       s.particles[q].bestScore <= s.global.score &&
       (s.particles[q].bestScore == -1.0 || s.particles[q].bestScore == Score(c, s.particles[q].bestPosition))) &&
    (s.global.position.Some? ==>
       InArea(c.areaSize, s.global.position.value) && s.global.score == Score(c, s.global.position.value))
  }

  /** Unit draws in [0,1) scaled by the area side stay inside the area. */
  lemma ScaledInArea(u: seq<Point>, areaSize: real)
    requires UnitDraws(u) && areaSize > 0.0
    ensures InArea(areaSize, Scaled(u, areaSize))
  {
    var r := Scaled(u, areaSize);
    forall k | 0 <= k < |r|
      ensures 0.0 <= r[k].x <= areaSize && 0.0 <= r[k].y <= areaSize
    {
      var p := u[k];
      assert 0.0 <= p.x < 1.0 && 0.0 <= p.y < 1.0;
      UnitTimesArea(p.x, areaSize);
      UnitTimesArea(p.y, areaSize);
      assert r[k] == Point(p.x * areaSize, p.y * areaSize);
    }
  }

  lemma UnitTimesArea(x: real, areaSize: real)
    requires 0.0 <= x < 1.0 && areaSize > 0.0
    ensures 0.0 <= x * areaSize <= areaSize
  {
    assert areaSize - x * areaSize == (1.0 - x) * areaSize;
  }

  /** The initial swarm is well formed and sound. */
  lemma InitialSound(c: Config, units: seq<seq<Point>>, velocities: seq<seq<Point>>)
    requires ValidConfig(c) && |units| == |velocities|
    requires forall q :: 0 <= q < |units| ==>
      |units[q]| == c.numDrones && |velocities[q]| == c.numDrones && UnitDraws(units[q])
    ensures WellFormed(c, Start(c, units, velocities)) && Sound(c, Start(c, units, velocities))
  {
    forall q | 0 <= q < |units| ensures InArea(c.areaSize, Scaled(units[q], c.areaSize)) {
      ScaledInArea(units[q], c.areaSize);
    }
  }

  /** One iteration keeps the swarm sound. */
  lemma StepSound(c: Config, s: SwarmState, ds: seq<Draw>)
    requires ValidConfig(c) && WellFormed(c, s) && |ds| == |s.particles| && Sound(c, s)
    ensures Sound(c, Step(c, s, ds))
  {
    var e := Evaluate(c, s.particles, s.global);
    EvaluateGlobal(c, s.particles, s.global);
    assert Sound(c, e);
  }

  lemma {:induction false} RunSound(c: Config, s: SwarmState, draws: seq<seq<Draw>>)
    requires ValidConfig(c) && WellFormed(c, s) && Sound(c, s)
    requires forall t :: 0 <= t < |draws| ==> |draws[t]| == |s.particles|
    ensures Sound(c, Run(c, s, draws))
  {
    if |draws| > 0 {
      var n := |draws| - 1;
      RunSound(c, s, draws[..n]);
      StepSound(c, Run(c, s, draws[..n]), draws[n]);
    }
  }

  /** One iteration never lowers the global best score or a personal best
      score. */
  lemma StepMonotone(c: Config, s: SwarmState, ds: seq<Draw>)
    requires ValidConfig(c) && WellFormed(c, s) && |ds| == |s.particles|
    ensures Step(c, s, ds).global.score >= s.global.score
    ensures forall q :: 0 <= q < |s.particles| ==>
      Step(c, s, ds).particles[q].bestScore >= s.particles[q].bestScore &&
      Step(c, s, ds).particles[q].bestScore >= Score(c, s.particles[q].position) &&
      Step(c, s, ds).global.score >= Score(c, s.particles[q].position)
  {
    EvaluateGlobal(c, s.particles, s.global);
  }

  /** Over the iterations the global best score and every personal best
      score never decrease. */
  lemma {:induction false} RunMonotone(c: Config, s: SwarmState, draws: seq<seq<Draw>>, i: nat)
    requires ValidConfig(c) && WellFormed(c, s)
    requires forall t :: 0 <= t < |draws| ==> |draws[t]| == |s.particles|
    requires i <= |draws|
    ensures Run(c, s, draws[..i]).global.score <= Run(c, s, draws).global.score
    ensures forall q :: 0 <= q < |s.particles| ==>
      Run(c, s, draws[..i]).particles[q].bestScore <= Run(c, s, draws).particles[q].bestScore
    decreases |draws|
  {
    if i == |draws| {
      assert draws[..i] == draws;
    } else {
      var n := |draws| - 1;
      RunMonotone(c, s, draws[..n], i);
      var before := Run(c, s, draws[..n]);
      assert Run(c, s, draws) == Step(c, before, draws[n]);
      StepMonotone(c, before, draws[n]);
      assert draws[..n][..i] == draws[..i];
    }
  }

  /** The global best score at the end is at least the score of every
      placement evaluated in any iteration, and every personal best score
      at least every score that particle was evaluated at. */
  lemma RunDominatesEvaluations(c: Config, s: SwarmState, draws: seq<seq<Draw>>, t: nat)
    requires ValidConfig(c) && WellFormed(c, s)
    requires forall t :: 0 <= t < |draws| ==> |draws[t]| == |s.particles|
    requires t < |draws|
    ensures forall q :: 0 <= q < |s.particles| ==>
      Score(c, Run(c, s, draws[..t]).particles[q].position) <= Run(c, s, draws).particles[q].bestScore &&
      Score(c, Run(c, s, draws[..t]).particles[q].position) <= Run(c, s, draws).global.score
  {
    assert draws[..t + 1][..t] == draws[..t] && draws[..t + 1][t] == draws[t];
    var before := Run(c, s, draws[..t]);
    assert Run(c, s, draws[..t + 1]) == Step(c, before, draws[t]);
    StepMonotone(c, before, draws[t]);
    RunMonotone(c, s, draws, t + 1);
    var after, last := Run(c, s, draws[..t + 1]), Run(c, s, draws);
    forall q | 0 <= q < |s.particles|
      ensures Score(c, before.particles[q].position) <= last.particles[q].bestScore
      ensures Score(c, before.particles[q].position) <= last.global.score
    {
      assert Score(c, before.particles[q].position) <= after.particles[q].bestScore <= last.particles[q].bestScore;
      assert Score(c, before.particles[q].position) <= after.global.score <= last.global.score;
    }
  }

  /** After every iteration the global best score dominates every personal
      best score. */
  lemma RunGlobalDominatesPersonal(c: Config, s: SwarmState, draws: seq<seq<Draw>>)
    requires ValidConfig(c) && WellFormed(c, s) && Sound(c, s)
    requires forall t :: 0 <= t < |draws| ==> |draws[t]| == |s.particles|
    ensures forall q :: 0 <= q < |s.particles| ==>
      Run(c, s, draws).particles[q].bestScore <= Run(c, s, draws).global.score
  {
    RunSound(c, s, draws);
  }

  lemma PrefixOfPrefix<T>(xs: seq<T>, n: nat, t: nat)
    requires t <= n <= |xs|
    ensures xs[..n][..t] == xs[..t]
  {
  }

  /** In one iteration a particle either keeps its personal best or takes
      the position it was just evaluated at, with that position's score. */
  lemma StepKeepsOrTakesBest(c: Config, s: SwarmState, ds: seq<Draw>, q: int)
    requires ValidConfig(c) && WellFormed(c, s) && |ds| == |s.particles| && 0 <= q < |s.particles|
    ensures var p, r := s.particles[q], Step(c, s, ds).particles[q];
      (r.bestPosition == p.bestPosition && r.bestScore == p.bestScore) ||
      (r.bestPosition == p.position && r.bestScore == Score(c, p.position))
  {
    var e := Evaluate(c, s.particles, s.global);
    EvaluateGlobal(c, s.particles, s.global);
    assert Step(c, s, ds).particles[q] == Move(c, e.particles[q], e.global.position.value, ds[q]);
  }

  /** In one iteration the global best pair either stays or becomes the
      score and position of some particle evaluated in that iteration. */
  lemma StepKeepsOrTakesGlobal(c: Config, s: SwarmState, ds: seq<Draw>)
    requires ValidConfig(c) && WellFormed(c, s) && |ds| == |s.particles|
    ensures var r := Step(c, s, ds).global;
      r == s.global ||
      exists q :: 0 <= q < |s.particles| && r == Global(Score(c, s.particles[q].position), Some(s.particles[q].position))
  {
    EvaluateGlobal(c, s.particles, s.global);
  }

  /** The iteration whose evaluation gave particle `q` its final personal
      best, or -1 when it still holds its initial best. */
  lemma {:induction false} BestSource(c: Config, s: SwarmState, draws: seq<seq<Draw>>, q: int) returns (t: int)
    requires ValidConfig(c) && WellFormed(c, s)
    requires forall t :: 0 <= t < |draws| ==> |draws[t]| == |s.particles|
    requires 0 <= q < |s.particles|
    ensures var r := Run(c, s, draws).particles[q];
      (t == -1 && r.bestPosition == s.particles[q].bestPosition && r.bestScore == s.particles[q].bestScore) ||
      (0 <= t < |draws| &&
       r.bestPosition == Run(c, s, draws[..t]).particles[q].position && r.bestScore == Score(c, r.bestPosition))
    decreases |draws|
  {
    t := -1;
    if |draws| > 0 {
      var n := |draws| - 1;
      var prev := Run(c, s, draws[..n]);
      assert Run(c, s, draws) == Step(c, prev, draws[n]);
      StepKeepsOrTakesBest(c, prev, draws[n], q);
      var r := Run(c, s, draws).particles[q];
      if r.bestPosition == prev.particles[q].position && r.bestScore == Score(c, prev.particles[q].position) {
        t := n;
      } else {
        t := BestSource(c, s, draws[..n], q);
        if t >= 0 {
          PrefixOfPrefix(draws, n, t);
        }
      }
    }
  }

  /** A personal best is never invented: at the end of a run each particle
      either still holds its initial best, or its best position is one of
      the positions it was evaluated at and its best score is that
      position's score. */
  lemma BestWasSeen(c: Config, s: SwarmState, draws: seq<seq<Draw>>, q: int)
    requires ValidConfig(c) && WellFormed(c, s)
    requires forall t :: 0 <= t < |draws| ==> |draws[t]| == |s.particles|
    requires 0 <= q < |s.particles|
    ensures var r := Run(c, s, draws).particles[q];
      (r.bestPosition == s.particles[q].bestPosition && r.bestScore == s.particles[q].bestScore) ||
      exists t :: 0 <= t < |draws| &&
        r.bestPosition == Run(c, s, draws[..t]).particles[q].position && r.bestScore == Score(c, r.bestPosition)
  {
    var t := BestSource(c, s, draws, q);
  }

  /** The iteration and particle whose evaluation set the final global
      best, or -1 when it is still the starting pair. */
  lemma {:induction false} GlobalSource(c: Config, s: SwarmState, draws: seq<seq<Draw>>) returns (t: int, q: int)
    requires ValidConfig(c) && WellFormed(c, s)
    requires forall t :: 0 <= t < |draws| ==> |draws[t]| == |s.particles|
    ensures var r := Run(c, s, draws).global;
      (t == -1 && r == s.global) ||
      (0 <= t < |draws| && 0 <= q < |s.particles| &&
       r == Global(Score(c, Run(c, s, draws[..t]).particles[q].position), Some(Run(c, s, draws[..t]).particles[q].position)))
    decreases |draws|
  {
    t, q := -1, 0;
    if |draws| > 0 {
      var n := |draws| - 1;
      var prev := Run(c, s, draws[..n]);
      var r := Run(c, s, draws).global;
      assert Run(c, s, draws) == Step(c, prev, draws[n]);
      StepKeepsOrTakesGlobal(c, prev, draws[n]);
      if r == prev.global {
        t, q := GlobalSource(c, s, draws[..n]);
        if t >= 0 {
          PrefixOfPrefix(draws, n, t);
        }
      } else {
        q :| 0 <= q < |prev.particles| && r == Global(Score(c, prev.particles[q].position), Some(prev.particles[q].position));
        t := n;
      }
    }
  }

  /** The global best is never invented: at the end of a run it is either
      the starting pair or the score and position of some particle in some
      iteration's evaluation phase. */
  lemma GlobalWasSeen(c: Config, s: SwarmState, draws: seq<seq<Draw>>)
    requires ValidConfig(c) && WellFormed(c, s)
    requires forall t :: 0 <= t < |draws| ==> |draws[t]| == |s.particles|
    ensures var r := Run(c, s, draws).global;
      r == s.global ||
      exists t, q :: 0 <= t < |draws| && 0 <= q < |s.particles| &&
        r == Global(Score(c, Run(c, s, draws[..t]).particles[q].position), Some(Run(c, s, draws[..t]).particles[q].position))
  {
    var t, q := GlobalSource(c, s, draws);
  }

  /** With at least one particle and one iteration, the -1 sentinels are
      gone: the global best position is set and every best score is a real,
      non-negative score. */
  lemma RunSetsGlobal(c: Config, s: SwarmState, draws: seq<seq<Draw>>)
    requires ValidConfig(c) && WellFormed(c, s)
    requires forall t :: 0 <= t < |draws| ==> |draws[t]| == |s.particles|
    requires |draws| > 0 && |s.particles| > 0
    ensures Run(c, s, draws).global.position.Some? && Run(c, s, draws).global.score >= 0.0
    ensures forall q :: 0 <= q < |s.particles| ==> Run(c, s, draws).particles[q].bestScore >= 0.0
  {
    RunDominatesEvaluations(c, s, draws, 0);
    assert Score(c, Run(c, s, draws[..0]).particles[0].position) <= Run(c, s, draws).global.score;
  }

  /** Without particles nothing is ever evaluated: the sentinel pair is
      returned unchanged. */
  lemma {:induction false} RunEmptySwarm(c: Config, s: SwarmState, draws: seq<seq<Draw>>)
    requires ValidConfig(c) && WellFormed(c, s) && |s.particles| == 0
    requires forall t :: 0 <= t < |draws| ==> |draws[t]| == 0
    ensures Run(c, s, draws).global == s.global
    decreases |draws|
  {
    if |draws| > 0 {
      RunEmptySwarm(c, s, draws[..|draws| - 1]);
    }
  }

  /** What `PSO` returns: the sentinel pair when nothing was evaluated;
      otherwise a placement inside the area, whose true score is the
      returned score, in [0, total mass], and at least the score of every
      initial placement. */
  lemma RunResult(c: Config, units: seq<seq<Point>>, velocities: seq<seq<Point>>, draws: seq<seq<Draw>>)
    requires ValidConfig(c) && |units| == |velocities|
    requires forall q :: 0 <= q < |units| ==>
      |units[q]| == c.numDrones && |velocities[q]| == c.numDrones && UnitDraws(units[q])
    requires forall t :: 0 <= t < |draws| ==> |draws[t]| == |units|
    ensures var r := Run(c, Start(c, units, velocities), draws).global;
      (|draws| == 0 || |units| == 0 ==> r == Global(-1.0, None)) &&
      (|draws| > 0 && |units| > 0 ==>
        r.position.Some? && |r.position.value| == c.numDrones &&
        InArea(c.areaSize, r.position.value) && r.score == Score(c, r.position.value) &&
        0.0 <= r.score <= GridSum(c.mapa) &&
        forall q :: 0 <= q < |units| ==> Score(c, Scaled(units[q], c.areaSize)) <= r.score)
  {
    var start := Start(c, units, velocities);
    InitialSound(c, units, velocities);
    if |units| == 0 {
      RunEmptySwarm(c, start, draws);
    } else if |draws| > 0 {
      RunSound(c, start, draws);
      RunSetsGlobal(c, start, draws);
      RunDominatesEvaluations(c, start, draws, 0);
      assert draws[..0] == [];
      forall q | 0 <= q < |units|
        ensures Score(c, Scaled(units[q], c.areaSize)) <= Run(c, start, draws).global.score
      {
        assert Run(c, start, draws[..0]).particles[q].position == Scaled(units[q], c.areaSize);
      }
    }
  }
  /** The pair `PSO` returns after at least one evaluation is a placement
      some particle was actually evaluated at, in some iteration, together
      with its score. */
  lemma RunResultWasEvaluated(c: Config, units: seq<seq<Point>>, velocities: seq<seq<Point>>, draws: seq<seq<Draw>>)
    requires ValidConfig(c) && |units| == |velocities|
    requires forall q :: 0 <= q < |units| ==>
      |units[q]| == c.numDrones && |velocities[q]| == c.numDrones && UnitDraws(units[q])
    requires forall t :: 0 <= t < |draws| ==> |draws[t]| == |units|
    requires |draws| > 0 && |units| > 0
    ensures var start := Start(c, units, velocities);
      var r := Run(c, start, draws).global;
      exists t, q :: 0 <= t < |draws| && 0 <= q < |units| &&
        r.position == Some(Run(c, start, draws[..t]).particles[q].position) &&
        r.score == Score(c, Run(c, start, draws[..t]).particles[q].position)
  {
    var start := Start(c, units, velocities);
    InitialSound(c, units, velocities);
    RunResult(c, units, velocities, draws);
    GlobalWasSeen(c, start, draws);
  }
}

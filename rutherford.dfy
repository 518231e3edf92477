/** The Rutherford visualiser (`RutherfordSystem`): one orbit per electron
    (at least one), laid out from the innermost to the outermost, each with a
    speed that falls outwards and a phase and orbit normal drawn from the
    element's `mulberry32` stream; every frame advances the motion time unless
    motion is frozen and places each electron on its orbit.

    The orbit radius `4 + t^0.75 * 5`, the orbit normal built from its two
    draws and the trail points are floating-point geometry and are not
    modelled: an orbit keeps its `t` and the two draws instead. */
module Rutherford {
  import opened Numbers
  import opened AtomVisuals

  /** An entry of `orbitConfigs`: its place `position` (the `t` of the loop)
      among the orbits, in [0, 1]; its angular speed; its starting phase; and
      the two draws `randomUnitVector` turns into the orbit normal. */
  datatype OrbitConfig = OrbitConfig(position: real, speed: real, phase: real, normalU: real, normalV: real)

  /** `Math.max(element.electrons, 1)`: an atom without electrons still gets
      one orbit. */
  function OrbitCount(electrons: int): (n: nat)
    ensures n >= 1
    ensures electrons >= 1 ==> n == electrons
    ensures electrons < 1 ==> n == 1
  {
    Max(electrons, 1)
  }

  /** `t = count === 1 ? 0 : i / (count - 1)`. */
  function OrbitPosition(count: nat, i: nat): (t: real)
    requires count >= 1
    ensures t >= 0.0
    ensures i == 0 ==> t == 0.0
    ensures i < count ==> t <= 1.0
    ensures count > 1 && i == count - 1 ==> t == 1.0
  {
    if count == 1 then 0.0
    else
      assert i < count ==> i as real <= (count - 1) as real;
      UnitFraction(i as real, (count - 1) as real);
      i as real / (count - 1) as real
  }

  /** `a / c` for `c > 0` is at most one exactly when `a` is at most `c`, and
      it is one at `a == c`. */
  lemma UnitFraction(a: real, c: real)
    requires a >= 0.0 && c > 0.0
    ensures a / c >= 0.0
    ensures a <= c ==> a / c <= 1.0
    ensures a == c ==> a / c == 1.0
  {
  }

  /** Division by a positive number keeps the order. */
  lemma FractionOrder(a: real, b: real, c: real)
    requires a <= b && c > 0.0
    ensures a / c <= b / c
  {
  }

  /** `speed = 0.7 / (1 + t * 1.6)`. */
  function OrbitSpeed(t: real): real
    requires t >= 0.0
  {
    0.7 / (1.0 + t * 1.6)
  }

  /** Orbit `i` of `count` from the numbers `draws` taken off the generator
      (counting from zero): its phase is draw `3i` of a full turn,
      `random() * Math.PI * 2`, and its normal comes from draws `3i + 1` and
      `3i + 2`. */
  function OrbitConfigAt(draws: seq<real>, count: nat, i: nat): OrbitConfig
    requires count >= 1 && 3 * i + 3 <= |draws|
  {
    var t := OrbitPosition(count, i);
    OrbitConfig(t, OrbitSpeed(t), draws[3 * i] * Pi * 2.0, draws[3 * i + 1], draws[3 * i + 2])
  }

  /** The first `n` orbits of `count`. */
  function OrbitsUpTo(draws: seq<real>, count: nat, n: nat): (r: seq<OrbitConfig>)
    requires count >= 1 && 3 * n <= |draws|
    ensures |r| == n
  {
    if n == 0 then [] else OrbitsUpTo(draws, count, n - 1) + [OrbitConfigAt(draws, count, n - 1)]
  }

  /** The `orbitConfigs` of an element: its orbits from the first three draws
      per orbit of the generator seeded with `atomicNumber || 1`. */
  function OrbitConfigs(atomicNumber: int, electrons: int): (r: seq<OrbitConfig>)
    ensures |r| == OrbitCount(electrons)
  {
    var count := OrbitCount(electrons);
    OrbitsUpTo(Draws(SeedOrOne(atomicNumber), 3 * count), count, count)
  }

  /** Entry `i` of the first `n` orbits is orbit `i`. */
  lemma {:induction false} OrbitsUpToAt(draws: seq<real>, count: nat, n: nat, i: nat)
    requires count >= 1 && 3 * n <= |draws| && i < n
    ensures OrbitsUpTo(draws, count, n)[i] == OrbitConfigAt(draws, count, i)
  {
    if i < n - 1 {
      OrbitsUpToAt(draws, count, n - 1, i);
    }
  }

  /** The first `n` orbits read only the first `3n` draws: later draws do not
      change them. */
  lemma {:induction false} OrbitsUpToExtend(draws: seq<real>, more: seq<real>, count: nat, n: nat)
    requires count >= 1 && 3 * n <= |draws|
    ensures OrbitsUpTo(draws + more, count, n) == OrbitsUpTo(draws, count, n)
  {
    if n > 0 {
      OrbitsUpToExtend(draws, more, count, n - 1);
      var i := n - 1;
      assert (draws + more)[3 * i] == draws[3 * i];
      assert (draws + more)[3 * i + 1] == draws[3 * i + 1];
      assert (draws + more)[3 * i + 2] == draws[3 * i + 2];
    }
  }

  /** `randomUnitVector(random)` up to its trigonometry: the two draws `u` and
      `v`, in that order. */
  method RandomUnitVector(random: Mulberry32) returns (u: real, v: real)
    requires random.Valid()
    modifies random
    ensures random.Valid() && random.history == old(random.history) + [u, v]
  {
    u := random.Next();
    v := random.Next();
  }

  /** The `useMemo` that builds `orbitConfigs`: three draws per orbit, phase
      first, from one generator seeded with `atomicNumber || 1`. */
  method BuildOrbitConfigs(atomicNumber: int, electrons: int) returns (configs: seq<OrbitConfig>)
    ensures configs == OrbitConfigs(atomicNumber, electrons)
  {
    var count := Max(electrons, 1);
    var random := new Mulberry32(SeedOrOne(atomicNumber));
    configs := [];
    for i := 0 to count
      invariant random.Valid() && |random.history| == 3 * i
      invariant configs == OrbitsUpTo(random.history, count, i)
    {
      var config := NextOrbit(random, count, i);
      configs := configs + [config];
    }
    HistoryIsDraws(random);
  }

  /** One pass of the loop of `orbitConfigs`: orbit `i` of `count`, drawing
      its phase and then its normal from `random`, which has made `3i`
      draws. */
  method NextOrbit(random: Mulberry32, count: nat, i: nat) returns (config: OrbitConfig)
    requires count >= 1 && random.Valid() && |random.history| == 3 * i
    modifies random
    ensures random.Valid() && |random.history| == 3 * i + 3
    ensures OrbitsUpTo(random.history, count, i + 1) == OrbitsUpTo(old(random.history), count, i) + [config]
  {
    var t := if count == 1 then 0.0 else i as real / (count - 1) as real;
    var speed := 0.7 / (1.0 + t * 1.6);
    assert t == OrbitPosition(count, i) && speed == OrbitSpeed(t);
    ghost var before := random.history;
    var r := random.Next();
    var phase := r * Pi * 2.0;
    var u, v := RandomUnitVector(random);
    config := OrbitConfig(t, speed, phase, u, v);
    assert random.history == before + [r, u, v];
    OrbitsUpToExtend(before, [r, u, v], count, i);
    assert config == OrbitConfigAt(random.history, count, i);
  }

  /** Whatever the draws, there are `count` orbits and orbit `i` takes exactly
      draws `3i` to `3i + 2`, in the order phase, u, v. */
  lemma OrbitDraws(draws: seq<real>, count: nat, i: nat)
    requires count >= 1 && 3 * count <= |draws| && i < count
    ensures |OrbitsUpTo(draws, count, count)| == count
    ensures OrbitsUpTo(draws, count, count)[i].phase == draws[3 * i] * Pi * 2.0
    ensures OrbitsUpTo(draws, count, count)[i].normalU == draws[3 * i + 1]
    ensures OrbitsUpTo(draws, count, count)[i].normalV == draws[3 * i + 2]
  {
    OrbitsUpToAt(draws, count, count, i);
  }

  /** An element's orbit `i` takes draws `3i + 1` to `3i + 3` of the
      generator seeded with `atomicNumber || 1`: phase, then the normal. */
  lemma OrbitConfigDraws(atomicNumber: int, electrons: int, i: nat)
    requires i < OrbitCount(electrons)
    ensures OrbitConfigs(atomicNumber, electrons)[i].phase == Draw(SeedOrOne(atomicNumber), 3 * i + 1) * Pi * 2.0
    ensures OrbitConfigs(atomicNumber, electrons)[i].normalU == Draw(SeedOrOne(atomicNumber), 3 * i + 2)
    ensures OrbitConfigs(atomicNumber, electrons)[i].normalV == Draw(SeedOrOne(atomicNumber), 3 * i + 3)
  {
    var count := OrbitCount(electrons);
    var d := Draws(SeedOrOne(atomicNumber), 3 * count);
    OrbitsUpToAt(d, count, count, i);
    assert d[3 * i] == Draw(SeedOrOne(atomicNumber), 3 * i + 1);
    assert d[3 * i + 1] == Draw(SeedOrOne(atomicNumber), 3 * i + 2);
    assert d[3 * i + 2] == Draw(SeedOrOne(atomicNumber), 3 * i + 3);
  }

  /** Whatever the draws, as long as they lie in [0, 1): every phase lies in
      [0, 2 pi) and both draws of every normal in [0, 1). */
  lemma OrbitRanges(draws: seq<real>, count: nat, i: nat)
    requires count >= 1 && 3 * count <= |draws| && i < count
    requires forall k :: 0 <= k < |draws| ==> 0.0 <= draws[k] < 1.0
    ensures 0.0 <= OrbitsUpTo(draws, count, count)[i].phase < 2.0 * Pi
    ensures 0.0 <= OrbitsUpTo(draws, count, count)[i].normalU < 1.0
    ensures 0.0 <= OrbitsUpTo(draws, count, count)[i].normalV < 1.0
  {
    OrbitsUpToAt(draws, count, count, i);
    var u := draws[3 * i];
    assert 0.0 <= u < 1.0;
    assert 0.0 <= u * (Pi * 2.0) < 2.0 * Pi;
  }

  /** Every orbit of an element lies in those ranges. */
  lemma OrbitConfigRanges(atomicNumber: int, electrons: int, i: nat)
    requires i < OrbitCount(electrons)
    ensures 0.0 <= OrbitConfigs(atomicNumber, electrons)[i].phase < 2.0 * Pi
    ensures 0.0 <= OrbitConfigs(atomicNumber, electrons)[i].normalU < 1.0
    ensures 0.0 <= OrbitConfigs(atomicNumber, electrons)[i].normalV < 1.0
  {
    var count := OrbitCount(electrons);
    var d := Draws(SeedOrOne(atomicNumber), 3 * count);
    forall k | 0 <= k < |d| ensures 0.0 <= d[k] < 1.0 {
      assert d[k] == Draw(SeedOrOne(atomicNumber), k + 1);
    }
    OrbitRanges(d, count, i);
  }

  /** The orbits run from `t = 0` to `t = 1`: a single orbit sits at 0, and
      with more the first sits at 0 and the last at 1. */
  lemma OrbitPositions(draws: seq<real>, count: nat, i: nat)
    requires count >= 1 && 3 * count <= |draws| && i < count
    ensures 0.0 <= OrbitsUpTo(draws, count, count)[i].position <= 1.0
    ensures i == 0 ==> OrbitsUpTo(draws, count, count)[i].position == 0.0
    ensures count > 1 && i == count - 1 ==> OrbitsUpTo(draws, count, count)[i].position == 1.0
  {
    OrbitsUpToAt(draws, count, count, i);
  }

  /** The speed stays within [0.7 / 2.6, 0.7], with 0.7 at `t = 0` and
      0.7 / 2.6 at `t = 1`. */
  lemma SpeedRange(t: real)
    requires 0.0 <= t <= 1.0
    ensures 0.7 / 2.6 <= OrbitSpeed(t) <= 0.7
    ensures t == 0.0 ==> OrbitSpeed(t) == 0.7
    ensures t == 1.0 ==> OrbitSpeed(t) == 0.7 / 2.6
  {
    SpeedFalls(t, 1.0);
    SpeedFalls(0.0, t);
  }

  /** The speed never rises outwards. */
  lemma SpeedFalls(s: real, t: real)
    requires 0.0 <= s <= t
    ensures OrbitSpeed(t) <= OrbitSpeed(s)
  {
    var a := 1.0 + s * 1.6;
    var b := 1.0 + t * 1.6;
    assert 1.0 <= a <= b;
    var x, y := 0.7 / a, 0.7 / b;
    assert x * a == 0.7 && y * b == 0.7 && x > 0.0;
    assert x * a <= x * b;
    assert (x - y) * b == x * b - y * b >= 0.0;
    NonNegativeFactor(x - y, b);
  }

  /** A product with a positive factor is non-negative only when the other
      factor is. */
  lemma NonNegativeFactor(p: real, b: real)
    requires b > 0.0 && p * b >= 0.0
    ensures p >= 0.0
  {
  }

  /** An outer orbit is never faster than an inner one: speeds fall with the
      orbit index, from 0.7 for the first orbit. */
  lemma OrbitSpeeds(draws: seq<real>, count: nat, i: nat, j: nat)
    requires i <= j < count && 3 * count <= |draws|
    ensures OrbitsUpTo(draws, count, count)[j].speed <= OrbitsUpTo(draws, count, count)[i].speed
    ensures OrbitsUpTo(draws, count, count)[0].speed == 0.7
  {
    OrbitsUpToAt(draws, count, count, i);
    OrbitsUpToAt(draws, count, count, j);
    OrbitsUpToAt(draws, count, count, 0);
    if count > 1 {
      FractionOrder(i as real, j as real, (count - 1) as real);
    }
    SpeedFalls(OrbitPosition(count, i), OrbitPosition(count, j));
  }

  /** Where the electron of an orbit is at motion time `time`, as an angle on
      its orbit: `time * speed + phase`. */
  function ElectronAngle(time: real, config: OrbitConfig): real {
    time * config.speed + config.phase
  }

  /** At motion time 0 an electron sits at its phase, and every `delta` of
      motion time turns it by `delta * speed`. */
  lemma AngleAdvance(time: real, delta: real, config: OrbitConfig)
    ensures ElectronAngle(0.0, config) == config.phase
    ensures ElectronAngle(time + delta, config) == ElectronAngle(time, config) + delta * config.speed
  {
  }

  /** One mounted `RutherfordSystem`: its orbits, the angles last written to
      the electron instances, the `motionTime` ref and the group's rotation
      about the y axis. */
  class RutherfordMotion {
    const configs: seq<OrbitConfig>
    const instances: array<real>
    var motionTime: real
    var rotationY: real

    constructor (configs: seq<OrbitConfig>)
      ensures this.configs == configs && instances.Length == |configs| && fresh(instances)
      ensures motionTime == 0.0 && rotationY == 0.0
    {
      this.configs := configs;
      instances := new real[|configs|];
      motionTime := 0.0;
      rotationY := 0.0;
    }

    /** The `useFrame` callback for a frame of `delta` seconds. Motion time
        advances only when motion is not frozen; when the electron mesh is
        mounted every electron is put at its angle for the new time, and only
        then may the group turn, by `delta * 0.15`, which it does when
        `rotateAtom` is on, motion is not frozen and the group is mounted. */
    method Frame(delta: real, freezeMotion: bool, rotateAtom: bool, hasElectrons: bool, hasGroup: bool)
      requires instances.Length == |configs|
      modifies this, instances
      ensures motionTime == if freezeMotion then old(motionTime) else old(motionTime) + delta
      ensures hasElectrons ==> forall i :: 0 <= i < |configs| ==> instances[i] == ElectronAngle(motionTime, configs[i])
      ensures !hasElectrons ==> instances[..] == old(instances[..])
      ensures rotationY
              == if hasElectrons && rotateAtom && !freezeMotion && hasGroup then old(rotationY) + delta * 0.15
                 else old(rotationY)
    {
      if !freezeMotion {
        motionTime := motionTime + delta;
      }
      var time := motionTime;
      if !hasElectrons {
        return;
      }
      for index := 0 to |configs|
        invariant forall i :: 0 <= i < index ==> instances[i] == ElectronAngle(time, configs[i])
        modifies instances
      {
        var config := configs[index];
        instances[index] := time * config.speed + config.phase;
      }
      if rotateAtom && !freezeMotion && hasGroup {
        rotationY := rotationY + delta * 0.15;
      }
    }
  }
}

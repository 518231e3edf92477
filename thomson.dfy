/** The Thomson visualiser (`ThomsonSystem`): a positive sphere whose radius
    grows with the clamped atomic mass, with the element's electrons scattered
    inside it. `createElectronPositions` takes three draws of the element's
    `mulberry32` stream per electron: an azimuth, a polar cosine and a radial
    fraction. Every frame the group turns, unless rotation is off or motion is
    frozen.

    The turn of the draws into a point (`Math.acos`, `Math.cbrt`, `Math.sin`
    and `Math.cos`) is floating-point geometry and is not modelled: an electron
    keeps the three numbers that geometry is computed from. */
module Thomson {
  import opened Numbers
  import opened AtomVisuals
  import Rutherford

  /** One electron of `createElectronPositions` before its trigonometry:
      `theta = u * Math.PI * 2`, the cosine `2 * v - 1` whose `Math.acos` is
      `phi`, and the draw whose cube root scales the radius. */
  datatype ElectronSample = ElectronSample(theta: real, cosPhi: real, radialDraw: real)

  /** Electron `i` from the numbers `draws` taken off the generator (counting
      from zero): `u`, `v` and the radial draw are draws `3i`, `3i + 1` and
      `3i + 2`. */
  function ElectronAt(draws: seq<real>, i: nat): ElectronSample
    requires 3 * i + 3 <= |draws|
  {
    ElectronSample(draws[3 * i] * Pi * 2.0, 2.0 * draws[3 * i + 1] - 1.0, draws[3 * i + 2])
  }

  /** The first `n` electrons. */
  function ElectronsUpTo(draws: seq<real>, n: nat): (r: seq<ElectronSample>)
    requires 3 * n <= |draws|
    ensures |r| == n
  {
    if n == 0 then [] else ElectronsUpTo(draws, n - 1) + [ElectronAt(draws, n - 1)]
  }

  /** The number of times the loop `for (let i = 0; i < count; i += 1)` runs. */
  function LoopCount(count: int): (n: nat)
    ensures count <= 0 ==> n == 0
    ensures count > 0 ==> n == count
  {
    Max(count, 0)
  }

  /** `createElectronPositions(count, radius, seed)`: one electron per pass
      of the loop, from the generator seeded with `seed || 1`. */
  function ElectronPositions(count: int, seed: int): (r: seq<ElectronSample>)
    ensures |r| == LoopCount(count)
  {
    var n := LoopCount(count);
    ElectronsUpTo(Draws(SeedOrOne(seed), 3 * n), n)
  }

  /** Entry `i` of the first `n` electrons is electron `i`. */
  lemma {:induction false} ElectronsUpToAt(draws: seq<real>, n: nat, i: nat)
    requires 3 * n <= |draws| && i < n
    ensures ElectronsUpTo(draws, n)[i] == ElectronAt(draws, i)
  {
    if i < n - 1 {
      ElectronsUpToAt(draws, n - 1, i);
    }
  }

  /** The first `n` electrons read only the first `3n` draws. */
  lemma {:induction false} ElectronsUpToExtend(draws: seq<real>, more: seq<real>, n: nat)
    requires 3 * n <= |draws|
    ensures ElectronsUpTo(draws + more, n) == ElectronsUpTo(draws, n)
  {
    if n > 0 {
      ElectronsUpToExtend(draws, more, n - 1);
      var i := n - 1;
      assert (draws + more)[3 * i] == draws[3 * i];
      assert (draws + more)[3 * i + 1] == draws[3 * i + 1];
      assert (draws + more)[3 * i + 2] == draws[3 * i + 2];
    }
  }

  /** `createElectronPositions`: `u`, then `v`, then the radial draw, for each
      of `count` electrons, from one generator seeded with `seed || 1`. */
  method CreateElectronPositions(count: int, seed: int) returns (positions: seq<ElectronSample>)
    ensures positions == ElectronPositions(count, seed)
  {
    positions := [];
    var random := new Mulberry32(SeedOrOne(seed));
    var i: nat := 0;
    while i < count
      invariant i <= LoopCount(count)
      invariant random.Valid() && random.seed == SeedOrOne(seed) && |random.history| == 3 * i
      invariant positions == ElectronsUpTo(random.history, i)
    {
      var electron := NextElectron(random, i);
      positions := positions + [electron];
      i := i + 1;
    }
    HistoryIsDraws(random);
  }

  /** One pass of the loop of `createElectronPositions`: electron `i`, from
      `random`, which has made `3i` draws. */
  method NextElectron(random: Mulberry32, i: nat) returns (electron: ElectronSample)
    requires random.Valid() && |random.history| == 3 * i
    modifies random
    ensures random.Valid() && |random.history| == 3 * i + 3
    ensures ElectronsUpTo(random.history, i + 1) == ElectronsUpTo(old(random.history), i) + [electron]
  {
    ghost var before := random.history;
    var u := random.Next();
    var v := random.Next();
    var theta := u * Pi * 2.0;
    var cosPhi := 2.0 * v - 1.0;
    var w := random.Next();
    electron := ElectronSample(theta, cosPhi, w);
    assert random.history == before + [u, v, w];
    ElectronsUpToExtend(before, [u, v, w], i);
  }

  /** An atom with `count <= 0` electrons gets none; otherwise electron `i`
      takes exactly draws `3i` to `3i + 2` of its generator, in the order u, v,
      radial. */
  lemma ElectronDraws(count: int, seed: int, i: nat)
    requires i < LoopCount(count)
    ensures ElectronPositions(count, seed)[i].theta == Draw(SeedOrOne(seed), 3 * i + 1) * Pi * 2.0
    ensures ElectronPositions(count, seed)[i].cosPhi == 2.0 * Draw(SeedOrOne(seed), 3 * i + 2) - 1.0
    ensures ElectronPositions(count, seed)[i].radialDraw == Draw(SeedOrOne(seed), 3 * i + 3)
  {
    var n := LoopCount(count);
    var d := Draws(SeedOrOne(seed), 3 * n);
    ElectronsUpToAt(d, n, i);
    assert d[3 * i] == Draw(SeedOrOne(seed), 3 * i + 1);
    assert d[3 * i + 1] == Draw(SeedOrOne(seed), 3 * i + 2);
    assert d[3 * i + 2] == Draw(SeedOrOne(seed), 3 * i + 3);
  }

  /** Whatever the draws, as long as they lie in [0, 1): the azimuth lies in
      [0, 2 pi), the argument of `Math.acos` in [-1, 1), inside its domain, and
      the radial draw in [0, 1), so the cube root puts every electron strictly
      inside the sphere of radius `radius`. */
  lemma ElectronRanges(draws: seq<real>, n: nat, i: nat)
    requires 3 * n <= |draws| && i < n
    requires forall k :: 0 <= k < |draws| ==> 0.0 <= draws[k] < 1.0
    ensures 0.0 <= ElectronsUpTo(draws, n)[i].theta < 2.0 * Pi
    ensures -1.0 <= ElectronsUpTo(draws, n)[i].cosPhi < 1.0
    ensures 0.0 <= ElectronsUpTo(draws, n)[i].radialDraw < 1.0
  {
    ElectronsUpToAt(draws, n, i);
    var u := draws[3 * i];
    assert 0.0 <= u < 1.0;
    assert 0.0 <= u * (Pi * 2.0) < 2.0 * Pi;
  }

  /** Every electron of an element lies in those ranges. */
  lemma ElectronPositionRanges(count: int, seed: int, i: nat)
    requires i < LoopCount(count)
    ensures 0.0 <= ElectronPositions(count, seed)[i].theta < 2.0 * Pi
    ensures -1.0 <= ElectronPositions(count, seed)[i].cosPhi < 1.0
    ensures 0.0 <= ElectronPositions(count, seed)[i].radialDraw < 1.0
  {
    var n := LoopCount(count);
    var d := Draws(SeedOrOne(seed), 3 * n);
    forall k | 0 <= k < |d| ensures 0.0 <= d[k] < 1.0 {
      assert d[k] == Draw(SeedOrOne(seed), k + 1);
    }
    ElectronRanges(d, n, i);
  }

  /** Both visualisers seed the same generator with the atomic number and draw
      three numbers per electron: the first `min(count, orbits)` electrons of
      the Thomson model and orbits of the Rutherford model read the same
      draws, so an electron's azimuth is its orbit's phase, its polar cosine
      comes from its orbit's first normal draw and its radial draw is the
      second. */
  lemma SameDrawsAsOrbits(atomicNumber: int, electrons: int, i: nat)
    requires i < LoopCount(electrons)
    ensures i < Rutherford.OrbitCount(electrons)
    ensures ElectronPositions(electrons, atomicNumber)[i].theta
         == Rutherford.OrbitConfigs(atomicNumber, electrons)[i].phase
    ensures ElectronPositions(electrons, atomicNumber)[i].cosPhi
         == 2.0 * Rutherford.OrbitConfigs(atomicNumber, electrons)[i].normalU - 1.0
    ensures ElectronPositions(electrons, atomicNumber)[i].radialDraw
         == Rutherford.OrbitConfigs(atomicNumber, electrons)[i].normalV
  {
    ElectronDraws(electrons, atomicNumber, i);
    Rutherford.OrbitConfigDraws(atomicNumber, electrons, i);
  }

  /** One mounted `ThomsonSystem`: its electrons, what the instanced mesh
      holds for each of them, and the rotation of the group. */
  class ThomsonScene {
    const positions: seq<ElectronSample>
    const instances: array<ElectronSample>
    var rotationX: real
    var rotationY: real

    /** The instanced mesh is made with `electronPositions.length` slots. */
    constructor (positions: seq<ElectronSample>)
      ensures this.positions == positions && instances.Length == |positions| && fresh(instances)
      ensures rotationX == 0.0 && rotationY == 0.0
    {
      this.positions := positions;
      instances := new ElectronSample[|positions|];
      rotationX := 0.0;
      rotationY := 0.0;
    }

    /** The effect on `electronPositions`: with the mesh mounted, slot `index`
        gets electron `index`; without it nothing changes. */
    method PlaceElectrons(hasMesh: bool)
      requires instances.Length == |positions|
      modifies instances
      ensures hasMesh ==> instances[..] == positions
      ensures !hasMesh ==> instances[..] == old(instances[..])
    {
      if !hasMesh {
        return;
      }
      for index := 0 to |positions|
        invariant forall i :: 0 <= i < index ==> instances[i] == positions[i]
      {
        instances[index] := positions[index];
      }
    }

    /** The `useFrame` callback for a frame of `delta` seconds: the group turns
        by `delta * 0.2` about y and `delta * 0.08` about x, unless rotation
        is off, motion is frozen or the group is not mounted. */
    method Frame(delta: real, rotateAtom: bool, freezeMotion: bool, hasGroup: bool)
      modifies this
      ensures rotateAtom && !freezeMotion && hasGroup ==>
                rotationY == old(rotationY) + delta * 0.2 && rotationX == old(rotationX) + delta * 0.08
      ensures !(rotateAtom && !freezeMotion && hasGroup) ==>
                rotationY == old(rotationY) && rotationX == old(rotationX)
    {
      if !rotateAtom || freezeMotion || !hasGroup {
        return;
      }
      rotationY := rotationY + delta * 0.2;
      rotationX := rotationX + delta * 0.08;
    }
  }
}

/** The index layout of the nucleus and the electron phases of the atom views:
    how many particles there are, in which order, of which kind, and at which
    point of the sphere layout or fraction of a turn each one sits. The sphere
    coordinates themselves are not modelled; a point is named by its index. */
module ParticleDistribution {
  import opened Numbers

  /** A point of `fibonacciSphere`: the origin of the one-point layout, or the
      i-th point of the spiral. */
  datatype SpherePoint = Origin | Spiral(i: nat)

  datatype ParticleKind = Proton | Neutron

  datatype NucleusParticle = NucleusParticle(index: int, kind: ParticleKind, position: SpherePoint, scale: int)

  /** An electron of a shell: `phase` is `2π · turn`, the fraction of a full turn
      at which the electron starts. */
  datatype ElectronParticle = ElectronParticle(shellIndex: nat, electronIndex: nat, turn: real)

  /** The points `fibonacciSphere(count)` returns, by index. */
  function SpherePoints(count: int): (points: seq<SpherePoint>)
    ensures count <= 1 ==> points == [Origin]
    ensures count > 1 ==> |points| == count && forall i :: 0 <= i < count ==> points[i] == Spiral(i)
  {
    if count <= 1 then [Origin] else SpiralPoints(count)
  }

  function SpiralPoints(n: nat): (points: seq<SpherePoint>)
    ensures |points| == n && forall i :: 0 <= i < n ==> points[i] == Spiral(i)
  {
    if n == 0 then [] else SpiralPoints(n - 1) + [Spiral(n - 1)]
  }

  /** `fibonacciSphere`: the origin alone for at most one point, else one spiral
      point per index. */
  method FibonacciSphere(count: int) returns (result: seq<SpherePoint>)
    ensures result == SpherePoints(count)
    ensures |result| == Max(1, count)
  {
    if count <= 1 {
      return [Origin];
    }
    result := [];
    for i := 0 to count
      invariant result == SpiralPoints(i)
    {
      result := result + [Spiral(i)];
    }
  }

  /** `vectors[index] ?? new Vector3()`: the point of that index, or the origin
      when there is none. */
  function PointOr(vectors: seq<SpherePoint>, index: int): SpherePoint {
    if 0 <= index < |vectors| then vectors[index] else Origin
  }

  /** The particle the layout puts at place `k`: first the protons, numbered from
      0, then the neutrons, numbered on from `protons`. */
  function LayoutEntry(protons: int, neutrons: int, k: nat): NucleusParticle {
    var points := SpherePoints(Max(1, protons + neutrons));
    if k < Max(0, protons) then NucleusParticle(k, Proton, PointOr(points, k), 1)
    else
      var index := protons + (k - Max(0, protons));
      NucleusParticle(index, Neutron, PointOr(points, index), 1)
  }

  /** `generateNucleusLayout`: one proton for each of the first `protons` places
      and one neutron for each of the next `neutrons`, every one of scale 1 and
      at the sphere point of its index. */
  method GenerateNucleusLayout(protons: int, neutrons: int) returns (particles: seq<NucleusParticle>)
    ensures |particles| == Max(0, protons) + Max(0, neutrons)
    ensures forall k :: 0 <= k < |particles| ==> particles[k] == LayoutEntry(protons, neutrons, k)
  {
    var total := Max(1, protons + neutrons);
    var vectors := FibonacciSphere(total);
    particles := [];
    for i := 0 to Max(0, protons)
      invariant |particles| == i
      invariant forall k :: 0 <= k < i ==> particles[k] == LayoutEntry(protons, neutrons, k)
    {
      particles := particles + [NucleusParticle(i, Proton, PointOr(vectors, i), 1)];
    }
    for j := 0 to Max(0, neutrons)
      invariant |particles| == Max(0, protons) + j
      invariant forall k :: 0 <= k < |particles| ==> particles[k] == LayoutEntry(protons, neutrons, k)
    {
      var index := protons + j;
      particles := particles + [NucleusParticle(index, Neutron, PointOr(vectors, index), 1)];
    }
  }

  /** For real particle counts, particle k carries index k, the protons come
      first, and no two particles share a sphere point unless there is only one
      particle: the sphere always has a point for every index. With no nucleons
      at all the layout is empty, although the sphere still gets one point. */
  lemma LayoutFacts(protons: nat, neutrons: nat)
    ensures forall k :: 0 <= k < protons + neutrons ==>
              && LayoutEntry(protons, neutrons, k).index == k
              && (LayoutEntry(protons, neutrons, k).kind == Proton <==> k < protons)
              && LayoutEntry(protons, neutrons, k).scale == 1
    ensures protons + neutrons > 1 ==>
              forall k :: 0 <= k < protons + neutrons ==> LayoutEntry(protons, neutrons, k).position == Spiral(k)
    ensures protons + neutrons == 1 ==> LayoutEntry(protons, neutrons, 0).position == Origin
    ensures |SpherePoints(Max(1, protons + neutrons))| == Max(1, protons + neutrons)
  {
  }

  /** The particles of one shell of `count` electrons, the first `e` of them. */
  function ShellPhasesUpTo(shellIndex: nat, count: int, e: nat): seq<ElectronParticle> {
    if e == 0 then []
    else ShellPhasesUpTo(shellIndex, count, e - 1) + [ElectronParticle(shellIndex, e - 1, (e - 1) as real / Max(1, count) as real)]
  }

  /** The particles `createElectronPhases` emits for the first `s` shells. */
  function PhasesUpTo(sizes: seq<int>, s: nat): seq<ElectronParticle>
    requires s <= |sizes|
  {
    if s == 0 then [] else PhasesUpTo(sizes, s - 1) + ShellPhasesUpTo(s - 1, sizes[s - 1], Max(0, sizes[s - 1]))
  }

  /** The number of electrons of the first `s` shells, a negative size counting as none. */
  function Electrons(sizes: seq<int>, s: nat): nat
    requires s <= |sizes|
  {
    if s == 0 then 0 else Electrons(sizes, s - 1) + Max(0, sizes[s - 1])
  }

  /** `createElectronPhases`: shell by shell, one particle per electron, carrying
      its shell, its place in the shell and its fraction of a turn. */
  method CreateElectronPhases(shellSizes: seq<int>) returns (particles: seq<ElectronParticle>)
    ensures particles == PhasesUpTo(shellSizes, |shellSizes|)
    ensures |particles| == Electrons(shellSizes, |shellSizes|)
  {
    particles := [];
    for shellIndex := 0 to |shellSizes|
      invariant particles == PhasesUpTo(shellSizes, shellIndex)
    {
      var count := shellSizes[shellIndex];
      ghost var before := particles;
      var electronIndex := 0;
      while electronIndex < count
        invariant 0 <= electronIndex <= Max(0, count)
        invariant particles == before + ShellPhasesUpTo(shellIndex, count, electronIndex)
      {
        particles := particles + [ElectronParticle(shellIndex, electronIndex, electronIndex as real / Max(1, count) as real)];
        electronIndex := electronIndex + 1;
      }
    }
    PhasesLength(shellSizes, |shellSizes|);
  }

  lemma {:induction false} ShellPhasesFacts(shellIndex: nat, count: int, e: nat)
    requires e <= Max(0, count)
    ensures |ShellPhasesUpTo(shellIndex, count, e)| == e
    ensures forall k :: 0 <= k < e ==>
              ShellPhasesUpTo(shellIndex, count, e)[k] == ElectronParticle(shellIndex, k, k as real / count as real)
  {
    if e > 0 {
      ShellPhasesFacts(shellIndex, count, e - 1);
    }
  }

  lemma {:induction false} PhasesLength(sizes: seq<int>, s: nat)
    requires s <= |sizes|
    ensures |PhasesUpTo(sizes, s)| == Electrons(sizes, s)
  {
    if s > 0 {
      PhasesLength(sizes, s - 1);
      ShellPhasesFacts(s - 1, sizes[s - 1], Max(0, sizes[s - 1]));
    }
  }

  /** Where each electron lands: electron e of shell s sits right after all the
      electrons of the shells before it, with index e and the turn e / count,
      which lies in [0, 1) and is 0 for the first electron of the shell. */
  lemma {:induction false} PhasePlacement(sizes: seq<int>, s: nat, e: nat)
    requires s < |sizes| && e < sizes[s]
    ensures Electrons(sizes, s) + e < |PhasesUpTo(sizes, |sizes|)|
    ensures PhasesUpTo(sizes, |sizes|)[Electrons(sizes, s) + e]
         == ElectronParticle(s, e, e as real / sizes[s] as real)
    ensures 0.0 <= e as real / sizes[s] as real < 1.0
    ensures e == 0 ==> PhasesUpTo(sizes, |sizes|)[Electrons(sizes, s)].turn == 0.0
  {
    var all := PhasesUpTo(sizes, |sizes|);
    var upTo := PhasesUpTo(sizes, s + 1);
    var k := Electrons(sizes, s) + e;
    PrefixOfPhases(sizes, s + 1, |sizes|);
    PhasesLength(sizes, s);
    ShellPhasesFacts(s, sizes[s], sizes[s]);
    assert upTo == PhasesUpTo(sizes, s) + ShellPhasesUpTo(s, sizes[s], sizes[s]);
    assert upTo[k] == ElectronParticle(s, e, e as real / sizes[s] as real);
    assert all[k] == upTo[k];
    FractionBelowOne(e, sizes[s]);
  }

  /** A count below the shell size is a fraction of a turn in [0, 1). */
  lemma FractionBelowOne(e: nat, count: int)
    requires e < count
    ensures 0.0 <= e as real / count as real < 1.0
  {
    var q := e as real / count as real;
    assert q * count as real == e as real;
  }

  /** The particles of the first `s` shells begin the particles of the first `t`. */
  lemma {:induction false} PrefixOfPhases(sizes: seq<int>, s: nat, t: nat)
    requires s <= t <= |sizes|
    ensures |PhasesUpTo(sizes, s)| <= |PhasesUpTo(sizes, t)|
    ensures PhasesUpTo(sizes, s) == PhasesUpTo(sizes, t)[..|PhasesUpTo(sizes, s)|]
  {
    if s < t {
      PrefixOfPhases(sizes, s, t - 1);
    }
  }

  /** Every particle names a shell that exists and an electron within that shell,
      and its turn lies in [0, 1). */
  lemma {:induction false} PhaseBounds(sizes: seq<int>, s: nat)
    requires s <= |sizes|
    ensures forall k :: 0 <= k < |PhasesUpTo(sizes, s)| ==>
              && PhasesUpTo(sizes, s)[k].shellIndex < s
              && PhasesUpTo(sizes, s)[k].electronIndex < sizes[PhasesUpTo(sizes, s)[k].shellIndex]
              && 0.0 <= PhasesUpTo(sizes, s)[k].turn < 1.0
  {
    if s > 0 {
      PhaseBounds(sizes, s - 1);
      var count := Max(0, sizes[s - 1]);
      ShellPhasesFacts(s - 1, sizes[s - 1], count);
      var prior := PhasesUpTo(sizes, s - 1);
      var shell := ShellPhasesUpTo(s - 1, sizes[s - 1], count);
      forall k | 0 <= k < |PhasesUpTo(sizes, s)|
        ensures && PhasesUpTo(sizes, s)[k].shellIndex < s
                && PhasesUpTo(sizes, s)[k].electronIndex < sizes[PhasesUpTo(sizes, s)[k].shellIndex]
                && 0.0 <= PhasesUpTo(sizes, s)[k].turn < 1.0
      {
        if k >= |prior| {
          var e := k - |prior|;
          assert PhasesUpTo(sizes, s)[k] == shell[e];
          FractionBelowOne(e, sizes[s - 1]);
        }
      }
    }
  }
}

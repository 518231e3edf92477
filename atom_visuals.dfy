/** What the Rutherford and the Thomson visualisers share word for word: the
    `MAX_ATOMIC_MASS` clamp and the `mulberry32` generator that makes their
    random layouts the same on every render.

    `mulberry32(seed)` keeps its state `t` in a JavaScript number that only
    grows by `0x6d2b79f5` per draw; `>>>`, `^`, `|` and `Math.imul` read its
    low 32 bits. The state is modelled as an exact integer, which is what the
    number holds while it stays below 2^53. */
module AtomVisuals {
  import opened Numbers

  /** `MAX_ATOMIC_MASS`. */
  const MaxAtomicMass: real := 250.0

  /** `Math.max(1, Math.min(atomicMass, MAX_ATOMIC_MASS))`. */
  function ClampedMass(atomicMass: real): (r: real)
    ensures 1.0 <= r <= MaxAtomicMass
    ensures 1.0 <= atomicMass <= MaxAtomicMass ==> r == atomicMass
    ensures atomicMass < 1.0 ==> r == 1.0
    ensures atomicMass > MaxAtomicMass ==> r == MaxAtomicMass
  {
    ClampReal(atomicMass, 1.0, MaxAtomicMass)
  }

  /** `Math.PI`, to the digits JavaScript prints. */
  const Pi: real := 3.141592653589793

  /** The step the state `t` takes before every draw. */
  const Increment: int := 0x6d2b79f5

  const TwoTo32: int := 0x1_0000_0000

  /** `seed || 1`: a zero seed is replaced by one. */
  function SeedOrOne(seed: int): (r: int)
    ensures r != 0
    ensures seed != 0 ==> r == seed
    ensures seed == 0 ==> r == 1
  {
    if seed == 0 then 1 else seed
  }

  // ---------------------------------------------------------------------------
  // 32-bit words. Every intermediate value of the mix is kept as the unsigned
  // word the next operator reads: `Math.imul` and `^` give signed results, but
  // a signed and an unsigned reading of the same bits agree modulo 2^32, and
  // `>>>`, `^`, `|` and the final `>>> 0` only look at those bits.

  type Word = x: int | 0 <= x < TwoTo32

  function Pow2(n: nat): (r: nat)
    ensures r >= 1
  {
    if n == 0 then 1 else 2 * Pow2(n - 1)
  }

  lemma {:induction false} Pow2Add(m: nat, n: nat)
    ensures Pow2(m + n) == Pow2(m) * Pow2(n)
  {
    if m > 0 {
      Pow2Add(m - 1, n);
    }
  }

  lemma Pow2Word()
    ensures Pow2(32) == TwoTo32
  {
    assert Pow2(8) == 256;
    assert Pow2(16) == 65536 by {
      Pow2Add(8, 8);
    }
    Pow2Add(16, 16);
  }

  /** The low `n` bits of `a ^ b`. */
  function XorBits(a: nat, b: nat, n: nat): nat {
    if n == 0 then 0 else (if a % 2 == b % 2 then 0 else 1) + 2 * XorBits(a / 2, b / 2, n - 1)
  }

  /** The low `n` bits of `a | b`. */
  function OrBits(a: nat, b: nat, n: nat): nat {
    if n == 0 then 0 else (if a % 2 == 1 || b % 2 == 1 then 1 else 0) + 2 * OrBits(a / 2, b / 2, n - 1)
  }

  /** Both have at most `n` bits. */
  lemma {:induction false} BitsBound(a: nat, b: nat, n: nat)
    ensures XorBits(a, b, n) < Pow2(n) && OrBits(a, b, n) < Pow2(n)
  {
    if n > 0 {
      BitsBound(a / 2, b / 2, n - 1);
    }
  }

  /** `a ^ b`. */
  function Xor(a: Word, b: Word): Word {
    BitsBound(a, b, 32);
    Pow2Word();
    XorBits(a, b, 32)
  }

  /** `a | b`. */
  function Or(a: Word, b: Word): Word {
    BitsBound(a, b, 32);
    Pow2Word();
    OrBits(a, b, 32)
  }

  /** `Math.imul(a, b)`: the low 32 bits of the product. */
  function Imul(a: Word, b: Word): Word {
    (a * b) % 0x1_0000_0000
  }

  /** The low 32 bits of a sum, as `^=` reads `value + ...`. */
  function Plus(a: Word, b: Word): Word {
    (a + b) % 0x1_0000_0000
  }

  /** The low 32 bits of the state, as the bitwise operators read it. */
  function Bits(t: int): Word {
    t % 0x1_0000_0000
  }

  /** The mix of one draw, whose state is `t` after the step:
      `value = Math.imul(t ^ (t >>> 15), 1 | t)`,
      `value ^= value + Math.imul(value ^ (value >>> 7), 61 | value)`,
      `(value ^ (value >>> 14)) >>> 0`. A shift `w >>> k` of a word `w` is
      `w / 2^k`. */
  function Mix(t: int): Word {
    var s := Bits(t);
    var a := Imul(Xor(s, s / 0x8000), Or(1, s));
    var b := Xor(a, Plus(a, Imul(Xor(a, a / 0x80), Or(61, a))));
    Xor(b, b / 0x4000)
  }

  /** The number one draw returns: the unsigned mix over 2^32. */
  function Output(t: int): (r: real)
    ensures 0.0 <= r < 1.0
  {
    Mix(t) as real / 4294967296.0
  }

  // ---------------------------------------------------------------------------
  // The stream of draws

  /** The state after `k` draws of the generator seeded with `seed`. */
  function State(seed: int, k: nat): int {
    seed + k * 0x6d2b79f5
  }

  /** The `k`-th draw (counting from one) of the generator seeded with `seed`:
      the first draw mixes the state after one step, and each later one is a
      draw of the generator seeded with that stepped state. The same seed
      always gives the same draw, and every draw lies in [0, 1). */
  function Draw(seed: int, k: nat): (r: real)
    ensures 0.0 <= r < 1.0
    decreases k
  {
    if k == 0 then Output(seed) else Draw(seed + Increment, k - 1)
  }

  /** Draw `k` mixes the state after `k` steps. */
  lemma {:induction false} DrawIsOutput(seed: int, k: nat)
    ensures Draw(seed, k) == Output(State(seed, k))
    decreases k
  {
    if k > 0 {
      DrawIsOutput(seed + Increment, k - 1);
      assert State(seed + Increment, k - 1) == State(seed, k);
    }
  }

  /** The first `n` draws of the generator seeded with `seed`, in order. */
  function Draws(seed: int, n: nat): (r: seq<real>)
    ensures |r| == n
  {
    seq(n, k requires 0 <= k < n => Draw(seed, k + 1))
  }

  /** The generator `mulberry32` returns: a closure over its state `t`. Its
      ghost `history` records every number it has returned, so that callers
      can be specified by the draws they consumed. */
  class Mulberry32 {
    var t: int
    ghost const seed: int
    ghost var history: seq<real>

    /** The state has taken one step per draw, and draw `k` (counting from
        one) is `Draw(seed, k)`. */
    ghost predicate Valid()
      reads this
    {
      && t == State(seed, |history|)
      && forall k :: 1 <= k <= |history| ==> history[k - 1] == Draw(seed, k)
    }

    /** `mulberry32(seed)`: `let t = seed`. */
    constructor (seed: int)
      ensures Valid() && this.seed == seed && history == []
      ensures t == seed
    {
      t := seed;
      this.seed := seed;
      history := [];
    }

    /** One call of the closure: step the state, then mix it; the result is
        the next draw of the stream and lies in [0, 1). */
    method Next() returns (r: real)
      requires Valid()
      modifies this
      ensures Valid() && history == old(history) + [r]
      ensures t == old(t) + Increment
      ensures 0.0 <= r < 1.0
    {
      t := t + Increment;
      var s := Bits(t);
      var value := Imul(Xor(s, s / 0x8000), Or(1, s));
      value := Xor(value, Plus(value, Imul(Xor(value, value / 0x80), Or(61, value))));
      r := Xor(value, value / 0x4000) as real / 4294967296.0;
      history := history + [r];
      DrawIsOutput(seed, |history|);
    }
  }

  /** A generator's history is the start of the stream of its seed. */
  lemma HistoryIsDraws(g: Mulberry32)
    requires g.Valid()
    ensures g.history == Draws(g.seed, |g.history|)
  {
    var d := Draws(g.seed, |g.history|);
    forall k | 0 <= k < |g.history| ensures g.history[k] == d[k] {
      assert d[k] == Draw(g.seed, k + 1);
    }
  }

  /** The number `Next` returned last is the mix of the state it left: one
      call steps `t` and then mixes it. */
  lemma LastDrawIsOutput(g: Mulberry32)
    requires g.Valid() && |g.history| > 0
    ensures g.history[|g.history| - 1] == Output(g.t)
  {
    var n := |g.history|;
    assert g.history[n - 1] == Draw(g.seed, n);
    DrawIsOutput(g.seed, n);
  }
}

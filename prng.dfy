/**
 * A Lehmer-style multiplicative congruential generator: the state `last`
 * advances by last := (last * multiplier) % modulus, and every draw (a real in
 * [0, 1), a real scaled to a range, a rounded integer) is derived from the new
 * state. The C++ integer types are modelled by explicit range predicates, the
 * C++ `%` by a truncating remainder and `double` by `real`.
 */
module Prng {

  const MaxLong: int := 0x7FFF_FFFF_FFFF_FFFF
  const MinLong: int := -0x8000_0000_0000_0000
  const MaxInt: int := 0x7FFF_FFFF
  const MinInt: int := -0x8000_0000

  /** 2^31, the modulus the estimator passes as pow(2, 31). */
  const Pow2_31: int := 0x8000_0000

  /** Fits a 64-bit `long long`. */
  predicate IsLong(x: int) { MinLong <= x <= MaxLong }

  /** Fits a 32-bit `int`. */
  predicate IsInt(x: int) { MinInt <= x <= MaxInt }

  function Abs(x: int): nat { if x < 0 then -x else x }

  /** C++ `/` on signed integers: the quotient is truncated toward zero. */
  function CQuot(a: int, m: int): int
    requires m > 0
  {
    if a >= 0 then a / m else -((-a) / m)
  }

  /** C++ `%` on signed integers: the remainder takes the sign of the dividend. */
  function CRem(a: int, m: int): (r: int)
    requires m > 0
    ensures -m < r < m
    ensures a >= 0 ==> r >= 0
    ensures a <= 0 ==> r <= 0
    ensures a == CQuot(a, m) * m + r
  {
    if a >= 0 then a % m else -((-a) % m)
  }

  /** One step of the recurrence: the state after next(). */
  function Step(last: int, multiplier: int, modulus: int): int
    requires modulus > 0
  {
    CRem(last * multiplier, modulus)
  }

  /** The state after k calls of next(), starting from `last`. */
  function Iterate(last: int, multiplier: int, modulus: int, k: nat): int
    requires modulus > 0
  {
    if k == 0 then last else Step(Iterate(last, multiplier, modulus, k - 1), multiplier, modulus)
  }

  /** The real next() returns for a state: last / modulus. */
  function Unit(last: int, modulus: int): real
    requires modulus > 0
  {
    last as real / modulus as real
  }

  /** next(from, to) for a unit draw u: from + (to - from) * u. */
  function Scale(from: real, to: real, u: real): real
  {
    from + (to - from) * u
  }

  /** std::round: to the nearest integer, halfway cases away from zero. */
  function Round(x: real): (r: int)
    ensures x >= 0.0 ==> r as real - 0.5 <= x < r as real + 0.5
    ensures x < 0.0 ==> r as real - 0.5 < x <= r as real + 0.5
  {
    if x >= 0.0 then (x + 0.5).Floor else -((-x + 0.5).Floor)
  }

  /** nextInt(from, to) once the state has advanced to `last`. */
  function IntDraw(from: int, to: int, last: int, modulus: int): int
    requires modulus > 0
  {
    Round(Scale(from as real - 0.5, to as real + 0.5, Unit(last, modulus)))
  }

  /**
   * Parameters under which last * multiplier fits a `long long` for every
   * state the recurrence can reach after its first step (|last| < modulus).
   */
  predicate SafeParams(modulus: int, multiplier: int)
  {
    0 < modulus && (modulus - 1) * Abs(multiplier) <= MaxLong
  }

  lemma MulMonotone(a: nat, b: nat, c: nat)
    requires a <= b
    ensures a * c <= b * c
  {
  }

  lemma AbsMul(a: int, b: int)
    ensures Abs(a * b) == Abs(a) * Abs(b)
  {
    if a < 0 && b < 0 {
      assert a * b == (-a) * (-b);
    } else if a < 0 {
      assert -(a * b) == (-a) * b;
    } else if b < 0 {
      assert -(a * b) == a * (-b);
    }
  }

  /** With safe parameters the product formed by the next draw never overflows. */
  lemma StepRepresentable(last: int, multiplier: int, modulus: int)
    requires SafeParams(modulus, multiplier)
    ensures IsLong(Step(last, multiplier, modulus) * multiplier)
  {
    var r := Step(last, multiplier, modulus);
    MulMonotone(Abs(r), modulus - 1, Abs(multiplier));
    AbsMul(r, multiplier);
  }

  /** With the modulus 2^31 and any 32-bit multiplier, the product stays below 2^62 in magnitude. */
  lemma ReferenceProductFits(last: int, multiplier: int)
    requires 0 <= last < Pow2_31 && IsInt(multiplier)
    ensures -0x4000_0000_0000_0000 < last * multiplier < 0x4000_0000_0000_0000
    ensures IsLong(last * multiplier)
  {
    MulMonotone(Abs(multiplier), Pow2_31, last);
    AbsMul(last, multiplier);
    MulMonotone(last, Pow2_31 - 1, Pow2_31);
  }

  lemma OddProduct(a: int, b: int)
    requires a > 0 && b > 0 && a % 2 == 1 && b % 2 == 1
    ensures a * b > 0 && (a * b) % 2 == 1
  {
    var x, y := a / 2, b / 2;
    assert a == 2 * x + 1 && b == 2 * y + 1;
    assert a * b == 2 * (2 * x * y + x + y) + 1;
  }

  lemma OddRemainder(p: int, m: int)
    requires p > 0 && p % 2 == 1 && m > 0 && m % 2 == 0
    ensures (p % m) % 2 == 1
  {
    var q, c := p / m, m / 2;
    assert p == q * m + p % m;
    assert q * m == 2 * (q * c);
    assert p % m == 2 * (p / 2 - q * c) + 1;
  }

  /**
   * An even modulus with an odd, positive state and multiplier keeps the state
   * odd, hence strictly between 0 and the modulus.
   */
  lemma StepKeepsOdd(last: int, multiplier: int, modulus: int)
    requires modulus > 0 && modulus % 2 == 0
    requires last > 0 && last % 2 == 1 && multiplier > 0 && multiplier % 2 == 1
    ensures var r := Step(last, multiplier, modulus); 0 < r < modulus && r % 2 == 1
  {
    OddProduct(last, multiplier);
    OddRemainder(last * multiplier, modulus);
  }

  /** The whole stream from an odd seed with an odd multiplier and an even modulus stays odd. */
  lemma {:induction false} IterateKeepsOdd(seed: int, multiplier: int, modulus: int, k: nat)
    requires modulus > 0 && modulus % 2 == 0
    requires 0 < seed < modulus && seed % 2 == 1 && multiplier > 0 && multiplier % 2 == 1
    ensures var r := Iterate(seed, multiplier, modulus, k); 0 < r < modulus && r % 2 == 1
  {
    if k > 0 {
      IterateKeepsOdd(seed, multiplier, modulus, k - 1);
      StepKeepsOdd(Iterate(seed, multiplier, modulus, k - 1), multiplier, modulus);
    }
  }

  /** A state strictly inside (-modulus, modulus) gives a draw strictly inside (-1, 1). */
  lemma UnitBounded(last: int, modulus: int)
    requires -modulus < last < modulus
    ensures -1.0 < Unit(last, modulus) < 1.0
  {
  }

  /** next() lies in [0, 1) when the new state is in [0, modulus). */
  lemma UnitInRange(last: int, modulus: int)
    requires 0 <= last < modulus
    ensures 0.0 <= Unit(last, modulus) < 1.0
    ensures last > 0 ==> 0.0 < Unit(last, modulus)
  {
  }

  /** next(from, to) with a unit draw in [0, 1) lies in [from, to), or is `from` when from == to. */
  lemma ScaleInRange(from: real, to: real, u: real)
    requires from <= to && 0.0 <= u < 1.0
    ensures from <= Scale(from, to, u) <= to
    ensures from < to ==> Scale(from, to, u) < to
  {
    var d := to - from;
    assert d * u + d * (1.0 - u) == d;
    assert d * (1.0 - u) >= 0.0;
    assert Scale(from, to, u) == to - d * (1.0 - u);
    if from < to {
      assert d * (1.0 - u) > 0.0;
    }
  }

  /** Rounding any point of the open band (from - 1/2, to + 1/2) lands in [from, to]. */
  lemma RoundInBand(from: int, to: int, x: real)
    requires from as real - 0.5 < x < to as real + 0.5
    ensures from <= Round(x) <= to
  {
  }

  /**
   * nextInt(from, to) lies in [from, to] whenever the new state is strictly
   * between 0 and the modulus, however halfway cases are broken.
   */
  lemma IntDrawInRange(from: int, to: int, last: int, modulus: int)
    requires 0 < last < modulus
    ensures from <= to ==>
      from as real - 0.5 < Scale(from as real - 0.5, to as real + 0.5, Unit(last, modulus)) < to as real + 0.5
    ensures from <= to ==> from <= IntDraw(from, to, last, modulus) <= to
  {
    if from <= to {
      var u := Unit(last, modulus);
      UnitInRange(last, modulus);
      var lo, hi := from as real - 0.5, to as real + 0.5;
      var w := hi - lo;
      assert w >= 1.0;
      assert 0.0 < w * u < w;
      var x := Scale(lo, hi, u);
      assert x == lo + w * u;
      assert lo < x < hi;
      RoundInBand(from, to, x);
    }
  }

  /** A zero state would make nextInt(0, to) return -1, outside its range. */
  lemma ZeroStateLeavesRange(to: int, modulus: int)
    requires modulus > 0
    ensures IntDraw(0, to, 0, modulus) == -1
  {
    assert Unit(0, modulus) == 0.0;
    assert Scale(-0.5, to as real + 0.5, 0.0) == -0.5;
  }

  /** The draws next() returns over k calls from state `last`. */
  function Units(last: int, multiplier: int, modulus: int, k: nat): (s: seq<real>)
    requires modulus > 0
    ensures |s| == k
    ensures forall i :: 0 <= i < k ==> s[i] == Unit(Iterate(last, multiplier, modulus, i + 1), modulus)
  {
    if k == 0 then [] else
      Units(last, multiplier, modulus, k - 1) + [Unit(Iterate(last, multiplier, modulus, k), modulus)]
  }

  class MultiplicativePRNG {
    const modulus: int
    const seed: int
    const multiplier: int
    var last: int

    /** The C++ types of the fields, and a positive modulus. */
    ghost predicate Valid()
      reads this
    {
      0 < modulus && IsLong(modulus) && IsLong(seed) && IsInt(multiplier) && IsLong(last)
    }

    /** MultiplicativePRNG(modulus, seed, multiplier): the stream starts at the seed. */
    constructor (modulus: int, seed: int, multiplier: int)
      requires 0 < modulus && IsLong(modulus) && IsLong(seed) && IsInt(multiplier)
      ensures Valid()
      ensures this.modulus == modulus && this.seed == seed && this.multiplier == multiplier
      ensures last == seed
    {
      this.modulus := modulus;
      this.multiplier := multiplier;
      this.seed := seed;
      last := seed;
    }

    /** The copy constructor: same parameters, and the source's current state. */
    constructor Copy(source: MultiplicativePRNG)
      requires source.Valid()
      ensures Valid()
      ensures modulus == source.modulus && seed == source.seed && multiplier == source.multiplier
      ensures last == source.last
    {
      modulus := source.modulus;
      multiplier := source.multiplier;
      seed := source.seed;
      last := source.last;
    }

    /** next(): advances the state and returns it divided by the modulus. */
    method Next() returns (u: real)
      requires Valid() && IsLong(last * multiplier)
      modifies this
      ensures Valid()
      ensures last == Step(old(last), multiplier, modulus)
      ensures u == Unit(last, modulus)
      ensures -1.0 < u < 1.0
      ensures old(last) >= 0 && multiplier >= 0 ==> 0 <= last < modulus && 0.0 <= u < 1.0
      ensures SafeParams(modulus, multiplier) ==> IsLong(last * multiplier)
    {
      last := CRem(last * multiplier, modulus);
      u := last as real / modulus as real;
      UnitBounded(last, modulus);
      if old(last) >= 0 && multiplier >= 0 {
        UnitInRange(last, modulus);
      }
      if SafeParams(modulus, multiplier) {
        StepRepresentable(old(last), multiplier, modulus);
      }
    }

    /** next(from, to): one draw of next() scaled to the range from .. to. */
    method NextBetween(from: real, to: real) returns (x: real)
      requires Valid() && IsLong(last * multiplier)
      modifies this
      ensures Valid()
      ensures last == Step(old(last), multiplier, modulus)
      ensures x == Scale(from, to, Unit(last, modulus))
      ensures old(last) >= 0 && multiplier >= 0 && from <= to ==> from <= x <= to && (from < to ==> x < to)
      ensures SafeParams(modulus, multiplier) ==> IsLong(last * multiplier)
    {
      var u := Next();
      x := from + (to - from) * u;
      if old(last) >= 0 && multiplier >= 0 && from <= to {
        ScaleInRange(from, to, u);
      }
    }

    /** nextInt(from, to): a draw in [from - 1/2, to + 1/2) rounded to the nearest integer. */
    method NextInt(from: int, to: int) returns (k: int)
      requires Valid() && IsLong(last * multiplier)
      modifies this
      ensures Valid()
      ensures last == Step(old(last), multiplier, modulus)
      ensures k == IntDraw(from, to, last, modulus)
      ensures from <= to && 0 < last < modulus ==> from <= k <= to
      ensures SafeParams(modulus, multiplier) ==> IsLong(last * multiplier)
    {
      var x := NextBetween(from as real - 0.5, to as real + 0.5);
      k := Round(x);
      if 0 < last < modulus {
        IntDrawInRange(from, to, last, modulus);
      }
    }

    /** reset(): the stream starts again at the seed. */
    method Reset()
      requires Valid()
      modifies this
      ensures Valid()
      ensures last == seed
    {
      last := seed;
    }

    /** clone(): a distinct generator holding this one's parameters and current state. */
    method Clone() returns (c: MultiplicativePRNG)
      requires Valid()
      ensures fresh(c) && c.Valid()
      ensures c.modulus == modulus && c.seed == seed && c.multiplier == multiplier
      ensures c.last == last
    {
      c := new MultiplicativePRNG.Copy(this);
    }
  }

  /** k successive calls of next(): the draws from the current state, and the state k steps on. */
  method Draws(g: MultiplicativePRNG, k: nat) returns (s: seq<real>)
    requires g.Valid() && SafeParams(g.modulus, g.multiplier) && IsLong(g.last * g.multiplier)
    modifies g
    ensures g.Valid() && IsLong(g.last * g.multiplier)
    ensures g.last == Iterate(old(g.last), g.multiplier, g.modulus, k)
    ensures s == Units(old(g.last), g.multiplier, g.modulus, k)
  {
    s := [];
    var i := 0;
    while i < k
      invariant 0 <= i <= k && g.Valid()
      invariant g.last == Iterate(old(g.last), g.multiplier, g.modulus, i)
      invariant IsLong(g.last * g.multiplier)
      invariant s == Units(old(g.last), g.multiplier, g.modulus, i)
    {
      var u := g.Next();
      s := s + [u];
      i := i + 1;
    }
  }

  /**
   * The reset law: from a freshly seeded generator, k draws, reset, and k more
   * draws give the same two sequences (the draws from the seed).
   */
  method ResetReplays(g: MultiplicativePRNG, k: nat) returns (first: seq<real>, second: seq<real>)
    requires g.Valid() && g.last == g.seed
    requires SafeParams(g.modulus, g.multiplier) && IsLong(g.seed * g.multiplier)
    modifies g
    ensures first == second == Units(g.seed, g.multiplier, g.modulus, k)
  {
    first := Draws(g, k);
    g.Reset();
    second := Draws(g, k);
  }

  /**
   * Determinism: two distinct generators constructed with the same parameters
   * yield the same k draws.
   */
  method SameParametersSameStream(modulus: int, seed: int, multiplier: int, k: nat)
    returns (first: seq<real>, second: seq<real>)
    requires 0 < modulus && IsLong(modulus) && IsLong(seed) && IsInt(multiplier)
    requires SafeParams(modulus, multiplier) && IsLong(seed * multiplier)
    ensures first == second == Units(seed, multiplier, modulus, k)
  {
    var g1 := new MultiplicativePRNG(modulus, seed, multiplier);
    var g2 := new MultiplicativePRNG(modulus, seed, multiplier);
    first := Draws(g1, k);
    second := Draws(g2, k);
  }

  /**
   * The clone law: a clone continues from the source's current state, and a
   * draw on either object leaves the other unchanged.
   */
  method CloneIsSnapshot(g: MultiplicativePRNG) returns (x: real, y: real)
    requires g.Valid() && IsLong(g.last * g.multiplier)
    modifies g
    ensures x == y == Unit(Step(old(g.last), g.multiplier, g.modulus), g.modulus)
    ensures g.last == Step(old(g.last), g.multiplier, g.modulus)
  {
    var c := g.Clone();
    x := g.Next();
    assert c.last == old(g.last);
    y := c.Next();
    assert g.last == Step(old(g.last), g.multiplier, g.modulus);
  }
}

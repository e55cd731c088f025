/**
 The combined multiplicative congruential generator behind MATH_REAL's UNIFORM
 (section 16.6 of IEEE 1076-2008), computed in 32-bit integers by Schrage's decomposition.

 HifVhdlUniform is the code, on a type that admits no value outside 32 bits, so every
 intermediate result is proved to fit. The seeds it leaves are the exact products modulo the two
 primes, the output is their difference over the modulus up to rounding of the constant; the lemmas
 follow the seeds over any number of calls.
 */
module Uniform {
  newtype int32 = x: int | -0x8000_0000 <= x < 0x8000_0000

  const MODULUS1: int := 2147483563
  const MODULUS2: int := 2147483399
  const FACTOR1: int := 40014
  const FACTOR2: int := 40692

  /** A multiplier, its modulus, and a witness that the multiplier can be undone. */
  datatype Generator = Generator(factor: int, modulus: int, inverse: int, quotient: int)

  const FIRST: Generator := Generator(FACTOR1, MODULUS1, 2082061899, 38795)
  const SECOND: Generator := Generator(FACTOR2, MODULUS2, 1481316021, 28069)

  predicate Invertible(g: Generator) {
    g.modulus > 1 && g.inverse * g.factor == 1 + g.quotient * g.modulus
  }

  predicate IsSeed(g: Generator, s: int) {
    1 <= s < g.modulus
  }

  function Next(g: Generator, s: int): int
    requires g.modulus > 0
  {
    (g.factor * s) % g.modulus
  }

  lemma BothInvertible()
    ensures Invertible(FIRST) && Invertible(SECOND)
  {
  }

  // ---------------------------------------------------------------- one call

  /** The integer the output is scaled from: congruent to the difference of the seeds, never 0. */
  function Combined(s1: int, s2: int): (z: int)
    requires IsSeed(FIRST, s1) && IsSeed(SECOND, s2)
    ensures 1 <= z < MODULUS1 && (z - (s1 - s2)) % (MODULUS1 - 1) == 0
  {
    if s1 - s2 < 1 then s1 - s2 + (MODULUS1 - 1) else s1 - s2
  }

  function Output(s1: int, s2: int): (x: real)
    requires IsSeed(FIRST, s1) && IsSeed(SECOND, s2)
    ensures 0.0 < x < 1.0
  {
    Combined(s1, s2) as real * 0.0000000004656613
  }

  /** How far the decimal factor may take the output from an exact division. */
  const TOLERANCE: real := 0.000000013

  /** x is z over the modulus, within the tolerance. */
  predicate Scaled(x: real, z: int) {
    -TOLERANCE < x - z as real / MODULUS1 as real < TOLERANCE
  }

  /** The output is the seed difference, brought into 1 to MODULUS1 - 1, over the modulus. */
  lemma OutputScaled(s1: int, s2: int, z: int)
    requires IsSeed(FIRST, s1) && IsSeed(SECOND, s2)
    requires 1 <= z < MODULUS1 && (z - (s1 - s2)) % (MODULUS1 - 1) == 0
    ensures Scaled(Output(s1, s2), z)
  {
    var c := Combined(s1, s2);
    OneRepresentative(z, c, s1 - s2);
    var r := z as real;
    assert r * 0.0000000004656613 - r / 2147483563.0 == r * (0.0000000004656613 - 1.0 / 2147483563.0);
    assert 1.0 <= r <= 2147483562.0;
  }

  lemma EachScaled(s1: int, s2: int)
    requires IsSeed(FIRST, s1) && IsSeed(SECOND, s2)
    ensures forall z :: 1 <= z < MODULUS1 && (z - (s1 - s2)) % (MODULUS1 - 1) == 0 ==> Scaled(Output(s1, s2), z)
  {
    forall z | 1 <= z < MODULUS1 && (z - (s1 - s2)) % (MODULUS1 - 1) == 0
      ensures Scaled(Output(s1, s2), z)
    {
      OutputScaled(s1, s2, z);
    }
  }

  /** Two numbers of the range that are congruent to the same one are equal. */
  lemma OneRepresentative(z: int, c: int, d: int)
    requires 1 <= z < MODULUS1 && 1 <= c < MODULUS1
    requires (z - d) % (MODULUS1 - 1) == 0 && (c - d) % (MODULUS1 - 1) == 0
    ensures z == c
  {
    var m := MODULUS1 - 1;
    var i, j := (z - d) / m, (c - d) / m;
    assert z - d == i * m && c - d == j * m;
    assert z - c == i * m - j * m == (i - j) * m;
    AtLeastOnce(i - j, m);
  }

  /** A larger difference gives a larger output. */
  lemma OutputIncreases(s1: int, s2: int, t1: int, t2: int)
    requires IsSeed(FIRST, s1) && IsSeed(SECOND, s2) && IsSeed(FIRST, t1) && IsSeed(SECOND, t2)
    ensures Output(s1, s2) < Output(t1, t2) <==> Combined(s1, s2) < Combined(t1, t2)
  {
  }

  /** A product reduced in two parts is the product less a multiple of the modulus. */
  lemma Schrage(a: int, q: int, r: int, m: int, s: int, k: int)
    requires m == a * q + r
    ensures a * (s - k * q) - k * r == a * s - k * m
  {
    calc {
      a * s - k * m;
      a * s - k * (a * q + r);
      { assert k * (a * q + r) == k * (a * q) + k * r; }
      a * s - k * (a * q) - k * r;
      { assert k * (a * q) == a * (k * q); }
      a * s - a * (k * q) - k * r;
      a * (s - k * q) - k * r;
    }
  }

  lemma AtLeastOnce(c: int, m: int)
    requires m > 0
    ensures c >= 1 ==> c * m >= m
    ensures c <= -1 ==> c * m <= -m
  {
    if c >= 1 {
      assert (c - 1) * m >= 0;
    } else if c <= -1 {
      assert (-1 - c) * m >= 0;
    }
  }

  lemma {:induction false} IsRemainder(x: int, k: int, m: int, t: int)
    requires 0 <= t < m && t == x - k * m
    ensures t == x % m
  {
    var q := x / m;
    assert x == q * m + x % m;
    assert (q - k) * m == q * m - k * m == t - x % m;
    AtLeastOnce(q - k, m);
  }

  lemma {:induction false} SeedRemainder(a: int, q: int, r: int, m: int, s: int, k: int, t: int, u: int)
    requires m == a * q + r && t == a * (s - k * q) - k * r
    requires u == (if t < 0 then t + m else t) && 0 <= u < m
    ensures u == (a * s) % m
  {
    Schrage(a, q, r, m, s, k);
    if t < 0 {
      assert (k - 1) * m == k * m - m;
      IsRemainder(a * s, k - 1, m, u);
    } else {
      IsRemainder(a * s, k, m, u);
    }
  }

  method HifVhdlUniform(seed1: int32, seed2: int32) returns (s1: int32, s2: int32, x: real)
    requires IsSeed(FIRST, seed1 as int) && IsSeed(SECOND, seed2 as int)
    ensures s1 as int == Next(FIRST, seed1 as int) && IsSeed(FIRST, s1 as int)
    ensures s2 as int == Next(SECOND, seed2 as int) && IsSeed(SECOND, s2 as int)
    ensures x == Output(s1 as int, s2 as int) && 0.0 < x < 1.0
    ensures forall z :: 1 <= z < MODULUS1 && (z - (s1 as int - s2 as int)) % (MODULUS1 - 1) == 0 ==> Scaled(x, z)
  {
    BothInvertible();
    s1, s2 := seed1, seed2;
    var k: int32 := s1 / 53668;
    s1 := 40014 * (s1 - k * 53668) - k * 12211;
    ghost var t := s1 as int;
    if s1 < 0 {
      s1 := s1 + 2147483563;
    }
    SeedRemainder(40014, 53668, 12211, 2147483563, seed1 as int, k as int, t, s1 as int);
    NeverZero(FIRST, seed1 as int);

    k := s2 / 52774;
    s2 := 40692 * (s2 - k * 52774) - k * 3791;
    t := s2 as int;
    if s2 < 0 {
      s2 := s2 + 2147483399;
    }
    SeedRemainder(40692, 52774, 3791, 2147483399, seed2 as int, k as int, t, s2 as int);
    NeverZero(SECOND, seed2 as int);

    var z: int32 := s1 - s2;
    if z < 1 {
      z := z + 2147483562;
    }
    x := z as real * 0.0000000004656613;
    assert z as int == Combined(s1 as int, s2 as int);
    EachScaled(s1 as int, s2 as int);
  }

  // ---------------------------------------------------------------- one step is a permutation

  lemma Divides(m: int, s: int, c: int)
    requires 0 < m && -m < s < m && s == m * c
    ensures s == 0
  {
    AtLeastOnce(c, m);
  }

  /** A multiple of the modulus that is a product by the factor comes from a multiple. */
  lemma {:induction false} Cancel(g: Generator, d: int, q: int)
    requires Invertible(g) && -g.modulus < d < g.modulus && g.factor * d == q * g.modulus
    ensures d == 0
  {
    var m := g.modulus;
    calc {
      d;
      (1 + g.quotient * m) * d - g.quotient * m * d;
      (g.inverse * g.factor) * d - g.quotient * m * d;
      { assert (g.inverse * g.factor) * d == g.inverse * (g.factor * d); }
      g.inverse * (q * m) - g.quotient * m * d;
      { assert g.inverse * (q * m) == m * (g.inverse * q) && g.quotient * m * d == m * (g.quotient * d); }
      m * (g.inverse * q) - m * (g.quotient * d);
      m * (g.inverse * q - g.quotient * d);
    }
    Divides(m, d, g.inverse * q - g.quotient * d);
  }

  lemma {:induction false} NeverZero(g: Generator, s: int)
    requires Invertible(g) && IsSeed(g, s)
    ensures IsSeed(g, Next(g, s))
  {
    if Next(g, s) == 0 {
      Cancel(g, s, (g.factor * s) / g.modulus);
    }
  }

  lemma {:induction false} NextInjective(g: Generator, s: int, t: int)
    requires Invertible(g) && IsSeed(g, s) && IsSeed(g, t) && Next(g, s) == Next(g, t)
    ensures s == t
  {
    var m := g.modulus;
    var qs, qt := (g.factor * s) / m, (g.factor * t) / m;
    assert g.factor * (s - t) == (qs - qt) * m by {
      assert g.factor * (s - t) == g.factor * s - g.factor * t;
      assert (qs - qt) * m == qs * m - qt * m;
    }
    Cancel(g, s - t, qs - qt);
  }

  // ---------------------------------------------------------------- any number of calls

  /** The seed after n calls. */
  function After(g: Generator, s: int, n: nat): int
    requires g.modulus > 0
  {
    if n == 0 then s else Next(g, After(g, s, n - 1))
  }

  function Pow(b: int, n: nat): int {
    if n == 0 then 1 else b * Pow(b, n - 1)
  }

  lemma {:induction false} SeedsForever(g: Generator, s: int, n: nat)
    requires Invertible(g) && IsSeed(g, s)
    ensures IsSeed(g, After(g, s, n))
  {
    if n > 0 {
      SeedsForever(g, s, n - 1);
      NeverZero(g, After(g, s, n - 1));
    }
  }

  lemma {:induction false} ProductRemainder(a: int, x: int, m: int)
    requires m > 0
    ensures (a * (x % m)) % m == (a * x) % m
  {
    var q, r := x / m, x % m;
    var t := (a * r) % m;
    var p := (a * r) / m;
    assert x == q * m + r;
    assert a * x == a * (q * m) + a * r;
    assert a * (q * m) == (a * q) * m;
    assert a * r == p * m + t;
    assert (a * q + p) * m == (a * q) * m + p * m;
    IsRemainder(a * x, a * q + p, m, t);
  }

  lemma {:induction false} PowerStep(a: int, power: int, s: int, m: int)
    requires m > 0
    ensures (a * ((power * s) % m)) % m == ((a * power) * s) % m
  {
    ProductRemainder(a, power * s, m);
    assert a * (power * s) == (a * power) * s;
  }

  /** Any number of calls multiplies the seed by a power of the factor. */
  lemma {:induction false} ClosedForm(g: Generator, s: int, n: nat)
    requires Invertible(g) && IsSeed(g, s)
    ensures After(g, s, n) == (Pow(g.factor, n) * s) % g.modulus
  {
    if n > 0 {
      ClosedForm(g, s, n - 1);
      PowerStep(g.factor, Pow(g.factor, n - 1), s, g.modulus);
    } else {
      assert Pow(g.factor, 0) * s == s;
    }
  }

  /** Every draw of every run lies strictly between 0 and 1, and leaves seeds the next call accepts. */
  lemma {:induction false} EveryDraw(s1: int, s2: int, n: nat)
    requires IsSeed(FIRST, s1) && IsSeed(SECOND, s2)
    ensures IsSeed(FIRST, After(FIRST, s1, n)) && IsSeed(SECOND, After(SECOND, s2, n))
    ensures 0.0 < Output(After(FIRST, s1, n), After(SECOND, s2, n)) < 1.0
    ensures After(FIRST, s1, n) == (Pow(FACTOR1, n) * s1) % MODULUS1
    ensures After(SECOND, s2, n) == (Pow(FACTOR2, n) * s2) % MODULUS2
  {
    BothInvertible();
    SeedsForever(FIRST, s1, n);
    SeedsForever(SECOND, s2, n);
    ClosedForm(FIRST, s1, n);
    ClosedForm(SECOND, s2, n);
  }

  lemma {:induction false} AfterInjective(g: Generator, s: int, t: int, n: nat)
    requires Invertible(g) && IsSeed(g, s) && IsSeed(g, t)
    ensures After(g, s, n) == After(g, t, n) ==> s == t
  {
    if n > 0 && After(g, s, n) == After(g, t, n) {
      SeedsForever(g, s, n - 1);
      SeedsForever(g, t, n - 1);
      NextInjective(g, After(g, s, n - 1), After(g, t, n - 1));
      AfterInjective(g, s, t, n - 1);
    }
  }

  lemma {:induction false} AfterAdd(g: Generator, s: int, m: nat, n: nat)
    requires g.modulus > 0
    ensures After(g, s, m + n) == After(g, After(g, s, m), n)
  {
    if n > 0 {
      AfterAdd(g, s, m, n - 1);
    }
  }

  // ---------------------------------------------------------------- the sequence of seeds is a cycle

  ghost function Seeds(n: nat): (r: set<int>)
    ensures |r| == n && forall x :: x in r <==> 1 <= x <= n
  {
    if n == 0 then {} else Seeds(n - 1) + {n}
  }

  ghost predicate Distinct(g: Generator, s: int, n: nat)
    requires g.modulus > 0
  {
    forall i, j :: 0 <= i < j < n ==> After(g, s, i) != After(g, s, j)
  }

  ghost function FirstSeeds(g: Generator, s: int, n: nat): set<int>
    requires g.modulus > 0
  {
    set i | 0 <= i < n :: After(g, s, i)
  }

  lemma {:induction false} DistinctCount(g: Generator, s: int, n: nat)
    requires g.modulus > 0 && Distinct(g, s, n)
    ensures |FirstSeeds(g, s, n)| == n
  {
    if n > 0 {
      DistinctCount(g, s, n - 1);
      assert FirstSeeds(g, s, n) == FirstSeeds(g, s, n - 1) + {After(g, s, n - 1)};
    }
  }

  lemma SubsetCount(a: set<int>, b: set<int>)
    requires a <= b
    ensures |a| <= |b|
  {
    assert b == a + (b - a);
  }

  /** The seeds come back to the first one, within as many calls as there are seeds. */
  lemma {:induction false} Returns(g: Generator, s: int) returns (n: nat)
    requires Invertible(g) && IsSeed(g, s)
    ensures 0 < n < g.modulus && After(g, s, n) == s
  {
    var total: nat := g.modulus - 1;
    if Distinct(g, s, total + 1) {
      DistinctCount(g, s, total + 1);
      var seen := FirstSeeds(g, s, total + 1);
      forall x | x in seen
        ensures x in Seeds(total)
      {
        var i :| 0 <= i < total + 1 && After(g, s, i) == x;
        SeedsForever(g, s, i);
      }
      SubsetCount(seen, Seeds(total));
      assert false;
    }
    var i, j :| 0 <= i < j < total + 1 && After(g, s, i) == After(g, s, j);
    n := j - i;
    AfterAdd(g, s, n, i);
    SeedsForever(g, s, n);
    AfterInjective(g, After(g, s, n), s, i);
  }

  /** Every seed follows another. */
  lemma {:induction false} Precedes(g: Generator, s: int) returns (r: int)
    requires Invertible(g) && IsSeed(g, s)
    ensures IsSeed(g, r) && Next(g, r) == s
  {
    var n := Returns(g, s);
    r := After(g, s, n - 1);
    SeedsForever(g, s, n - 1);
  }

  /** Calls come within the tolerance of both ends of the range. */
  lemma EndsDrawn() returns (low: int, high: int, other: int)
    ensures IsSeed(FIRST, low) && IsSeed(FIRST, high) && IsSeed(SECOND, other)
    ensures Next(FIRST, low) == 2 && Next(FIRST, high) == 1 && Next(SECOND, other) == 1
    ensures Output(2, 1) < TOLERANCE && Output(1, 1) > 1.0 - TOLERANCE
  {
    BothInvertible();
    low := Precedes(FIRST, 2);
    high := Precedes(FIRST, 1);
    other := Precedes(SECOND, 1);
    OutputEnds();
  }

  lemma OutputEnds()
    ensures Output(2, 1) < TOLERANCE && Output(1, 1) > 1.0 - TOLERANCE
  {
    assert Combined(2, 1) == 1 && Combined(1, 1) == MODULUS1 - 1;
  }
}

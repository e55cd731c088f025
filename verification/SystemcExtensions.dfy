/**
 Arithmetic of the SystemC support library on 64-bit integers: VHDL's mod built from C++'s
 truncating remainder, and the parity of a word.
 */
module SystemcExtensions {
  import opened Wrappers

  const MIN: int := -0x8000_0000_0000_0000
  const MAX: int := 0x7FFF_FFFF_FFFF_FFFF

  predicate Fits(x: int) {
    MIN <= x <= MAX
  }

  /** A result outside 64 bits, or a division by zero, has no defined value. */
  function Defined(x: int): Option<int> {
    if Fits(x) then Some(x) else None
  }

  function Negate(x: Option<int>): Option<int> {
    if x.Some? then Defined(-x.value) else None
  }

  function Add(x: Option<int>, y: Option<int>): Option<int> {
    if x.Some? && y.Some? then Defined(x.value + y.value) else None
  }

  function Subtract(x: Option<int>, y: Option<int>): Option<int> {
    if x.Some? && y.Some? then Defined(x.value - y.value) else None
  }

  function Abs(x: int): int {
    if x < 0 then -x else x
  }

  /** The quotient rounds toward zero, so the remainder has the sign of the dividend. */
  function Truncated(x: int, y: int): int
    requires y != 0
  {
    if x < 0 then -(-x % Abs(y)) else x % Abs(y)
  }

  function Remainder(x: Option<int>, y: Option<int>): Option<int> {
    if x.None? || y.None? || y.value == 0 || (x.value == MIN && y.value == -1) then None
    else Some(Truncated(x.value, y.value))
  }

  function HifMod(a: int, n: int): Option<int>
    requires Fits(a) && Fits(n)
  {
    var a1, n1 := Some(a), Some(n);
    if a >= 0 && n >= 0 then Remainder(a1, n1)
    else if a < 0 && n < 0 then Negate(Remainder(Negate(a1), Negate(n1)))
    else if a < 0 && n >= 0 then Remainder(Subtract(n1, Remainder(Negate(a1), n1)), n1)
    else Remainder(Add(Remainder(a1, Negate(n1)), n1), n1)
  }

  /** The result by quadrant, from the remainder t of the absolute values. */
  function Signed(a: int, n: int, t: int): int {
    if t == 0 then 0
    else if a >= 0 && n >= 0 then t
    else if a < 0 && n < 0 then -t
    else if a < 0 then n - t
    else t + n
  }

  /** VHDL's a mod n (section 9.2.7 of IEEE 1076-2008): a multiple away, shorter than n, with its sign. */
  predicate IsMod(a: int, n: int, r: int)
    requires n != 0
  {
    (a - r) % n == 0 && Abs(r) < Abs(n) && (r == 0 || (r < 0 <==> n < 0))
  }

  lemma AtLeastTheFactor(q: int, n: int)
    ensures q != 0 ==> Abs(q * n) >= Abs(n)
  {
    if q >= 1 {
      assert Abs(q * n) == q * Abs(n) == Abs(n) + (q - 1) * Abs(n);
    } else if q <= -1 {
      assert Abs(q * n) == -q * Abs(n) == Abs(n) + (-q - 1) * Abs(n);
    }
  }

  lemma MultipleBelow(n: int, d: int)
    requires n != 0 && d % n == 0 && Abs(d) < Abs(n)
    ensures d == 0
  {
    var q := d / n;
    assert d == q * n;
    AtLeastTheFactor(q, n);
  }

  lemma {:induction false} DivisibleDifference(n: int, x: int, y: int)
    requires n != 0 && x % n == 0 && y % n == 0
    ensures (x - y) % n == 0
  {
    var p, q := x / n, y / n;
    assert x - y == p * n - q * n == (p - q) * n;
    MultipleHasNoRemainder(p - q, n);
  }

  lemma {:induction false} MultipleHasNoRemainder(q: int, n: int)
    requires n != 0
    ensures (q * n) % n == 0
  {
    var r := (q * n) % n;
    var p := (q * n) / n;
    assert q * n == p * n + r;
    assert r == (q - p) * n;
    AtLeastTheFactor(q - p, n);
  }

  lemma {:induction false} ModUnique(a: int, n: int, r: int, t: int)
    requires n != 0 && IsMod(a, n, r) && IsMod(a, n, t)
    ensures r == t
  {
    DivisibleDifference(n, a - r, a - t);
    assert (a - r) - (a - t) == t - r;
    MultipleBelow(n, t - r);
  }

  lemma {:induction false} SameDivisors(d: int, n: int)
    requires n != 0 && d % Abs(n) == 0
    ensures d % n == 0 && -d % n == 0
  {
    var q := d / Abs(n);
    assert d == q * Abs(n);
    MultipleHasNoRemainder(if n < 0 then -q else q, n);
    MultipleHasNoRemainder(if n < 0 then q else -q, n);
    assert n < 0 ==> d == (-q) * n && -d == q * n;
    assert n > 0 ==> d == q * n && -d == (-q) * n;
  }

  lemma {:induction false} RemainderDivides(x: int, m: int)
    requires x >= 0 && m > 0
    ensures (x - x % m) % m == 0 && 0 <= x % m < m
  {
    assert x - x % m == (x / m) * m;
    MultipleHasNoRemainder(x / m, m);
  }

  /**
   hif_mod has a value exactly when n is not 0 and neither operand is the least integer, and then
   it is the one that VHDL's mod has.
   */
  lemma {:induction false} ModMeans(a: int, n: int)
    requires Fits(a) && Fits(n)
    ensures HifMod(a, n).None? <==> n == 0 || a == MIN || n == MIN
    ensures HifMod(a, n).Some? ==>
              IsMod(a, n, HifMod(a, n).value) && forall r :: IsMod(a, n, r) ==> r == HifMod(a, n).value
  {
    if n != 0 && a != MIN && n != MIN {
      var t := Abs(a) % Abs(n);
      RemainderDivides(Abs(a), Abs(n));
      SameDivisors(Abs(a) - t, n);
      var v := Signed(a, n, t);
      ModValue(a, n, t);
      assert HifMod(a, n) == Some(v);
      WrapOnce(a, n, t, v);
      forall r | IsMod(a, n, r)
        ensures r == v
      {
        ModUnique(a, n, r, v);
      }
    }
  }

  /** The four branches, with t the remainder of the absolute values. */
  lemma {:induction false} ModValue(a: int, n: int, t: int)
    requires Fits(a) && Fits(n) && n != 0 && a != MIN && n != MIN && t == Abs(a) % Abs(n)
    ensures HifMod(a, n) == Some(Signed(a, n, t))
  {
    if a < 0 && n >= 0 {
      BelowZero(a, n, t);
    } else if a >= 0 && n < 0 {
      BelowModulus(a, n, t);
    } else if n < 0 {
      assert Negate(Some(a)) == Some(-a) && Negate(Some(n)) == Some(-n);
      assert Remainder(Some(-a), Some(-n)) == Some(t);
    } else {
      assert Remainder(Some(a), Some(n)) == Some(t);
    }
  }

  lemma SmallRemainder(x: int, m: int)
    requires m > 0 && 0 <= x <= m
    ensures x % m == if x == m then 0 else x
  {
  }

  lemma {:induction false} BelowZero(a: int, n: int, t: int)
    requires Fits(a) && Fits(n) && a < 0 && n > 0 && a != MIN && t == (-a) % n && 0 <= t < n
    ensures HifMod(a, n) == Some(if t == 0 then 0 else n - t)
  {
    assert Negate(Some(a)) == Some(-a);
    assert Remainder(Some(-a), Some(n)) == Some(t);
    assert Subtract(Some(n), Some(t)) == Some(n - t);
    SmallRemainder(n - t, n);
  }

  lemma {:induction false} BelowModulus(a: int, n: int, t: int)
    requires Fits(a) && Fits(n) && a >= 0 && n < 0 && n != MIN && t == a % -n && 0 <= t < -n
    ensures HifMod(a, n) == Some(if t == 0 then 0 else t + n)
  {
    assert Negate(Some(n)) == Some(-n);
    assert Remainder(Some(a), Some(-n)) == Some(t);
    assert Add(Some(t), Some(n)) == Some(t + n);
    SmallRemainder(-(t + n), -n);
  }

  lemma {:induction false} WrapOnce(a: int, n: int, t: int, v: int)
    requires n != 0 && 0 <= t < Abs(n) && (Abs(a) - t) % n == 0 && -(Abs(a) - t) % n == 0
    requires v == Signed(a, n, t)
    ensures IsMod(a, n, v)
  {
    MultipleHasNoRemainder(1, n);
    var d := if a < 0 then -(Abs(a) - t) else Abs(a) - t;
    if t != 0 && (a < 0) != (n < 0) {
      DivisibleDifference(n, d, 1 * n);
    }
  }

  // ---------------------------------------------------------------- parity

  newtype uint64 = x: int | 0 <= x < 0x1_0000_0000_0000_0000

  /** Whether the binary form of v has an odd number of ones. */
  function OddOnes(v: nat): bool {
    if v == 0 then false else (v % 2 == 1) != OddOnes(v / 2)
  }

  method HifXorrd(v: uint64) returns (res: bool)
    ensures res == OddOnes(v as nat)
  {
    var tmp := v;
    res := tmp % 2 != 0;
    tmp := tmp / 2;
    while tmp != 0
      invariant OddOnes(v as nat) == (res != OddOnes(tmp as nat))
      decreases tmp
    {
      res := res != (tmp % 2 != 0);
      tmp := tmp / 2;
    }
  }
}

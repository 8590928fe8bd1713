/**
 * Integer helpers of the algorithm library: the power-of-two tests, `clamp`
 * on integer types and the variadic membership test `in`.  The bitwise mask
 * that the ring queue uses for its modulo is modelled here as well.
 */
module Algorithm {

  /** `isPow2Ce` as written: non-positive is rejected, 1 is accepted, anything larger is tested again after halving. */
  function IsPow2Ce(x: int): bool
    decreases if x > 0 then x else 0
  {
    if x > 0 then
      if x == 1 then x / 2 == 0 else IsPow2Ce(x / 2)
    else
      false
  }

  /**
   * `isPow2`, the non-constexpr twin: same test, its recursion goes through
   * `isPow2Ce`.  The C++ calls `isPow2Ce` before declaring it, so a built-in
   * integer instantiation does not compile; this reads the text as if it did.
   */
  function IsPow2(x: int): bool
  {
    if x > 0 then
      if x == 1 then x / 2 == 0 else IsPow2Ce(x / 2)
    else
      false
  }

  /** As written, `isPow2Ce` accepts every positive integer, not only the powers of two. */
  lemma {:induction false} IsPow2CeAcceptsEveryPositive(x: int)
    ensures IsPow2Ce(x) <==> x > 0
    decreases if x > 0 then x else 0
  {
    if x > 1 {
      IsPow2CeAcceptsEveryPositive(x / 2);
    }
  }

  /** `isPow2` inherits the defect. */
  lemma {:induction false} IsPow2AcceptsEveryPositive(x: int)
    ensures IsPow2(x) <==> x > 0
  {
    if x > 1 {
      IsPow2CeAcceptsEveryPositive(x / 2);
    }
  }

  /** A concrete witness: 3 is accepted although it is not a power of two. */
  lemma IsPow2CeAcceptsThree()
    ensures IsPow2Ce(3) && !IsPowerOfTwo(3)
  {
  }

  function Pow2(k: nat): (r: nat)
    ensures r >= 1
  {
    if k == 0 then 1 else 2 * Pow2(k - 1)
  }

  /** The evidently intended test: an odd number other than 1 is rejected before halving. */
  function IsPowerOfTwo(x: int): bool
    decreases if x > 0 then x else 0
  {
    if x > 0 then
      if x == 1 then true else x % 2 == 0 && IsPowerOfTwo(x / 2)
    else
      false
  }

  lemma {:induction false} PowerOfTwoHasExponent(x: int) returns (k: nat)
    requires IsPowerOfTwo(x)
    ensures x == Pow2(k)
    decreases if x > 0 then x else 0
  {
    if x == 1 {
      k := 0;
    } else {
      var j := PowerOfTwoHasExponent(x / 2);
      k := j + 1;
    }
  }

  lemma {:induction false} Pow2IsPowerOfTwo(k: nat)
    ensures IsPowerOfTwo(Pow2(k))
  {
    if k > 0 {
      Pow2IsPowerOfTwo(k - 1);
      assert Pow2(k) / 2 == Pow2(k - 1);
    }
  }

  /** The corrected test accepts exactly the powers of two. */
  lemma IsPowerOfTwoCorrect(x: int)
    ensures IsPowerOfTwo(x) <==> exists k: nat :: x == Pow2(k)
  {
    if IsPowerOfTwo(x) {
      var k := PowerOfTwoHasExponent(x);
    }
    if exists k: nat :: x == Pow2(k) {
      var k: nat :| x == Pow2(k);
      Pow2IsPowerOfTwo(k);
    }
  }

  /** Bitwise `a & b` on non-negative integers. */
  function BitAnd(a: nat, b: nat): nat
  {
    if a == 0 || b == 0 then 0
    else 2 * BitAnd(a / 2, b / 2) + (if a % 2 == 1 && b % 2 == 1 then 1 else 0)
  }

  lemma MulAtLeast(m: nat, d: int)
    requires d >= 1
    ensures m * d >= m
  {
    assert m * d == m + m * (d - 1);
  }

  lemma ModOfDecomposition(p: nat, m: nat, q: nat, r: nat)
    requires m > 0 && p == m * q + r && r < m
    ensures p % m == r
  {
    var q', r' := p / m, p % m;
    assert m * q + r == m * q' + r';
    assert m * (q - q') == r' - r;
    if q > q' {
      MulAtLeast(m, q - q');
    } else if q < q' {
      MulAtLeast(m, q' - q);
    }
  }

  lemma HalvingMod(p: nat, m: nat)
    requires m > 0
    ensures p % (2 * m) == 2 * ((p / 2) % m) + p % 2
  {
    var q := (p / 2) / m;
    var r := (p / 2) % m;
    assert p / 2 == m * q + r;
    assert p == (2 * m) * q + (2 * r + p % 2);
    ModOfDecomposition(p, 2 * m, q, 2 * r + p % 2);
  }

  lemma BitAndOddMask(p: nat, c: nat)
    ensures BitAnd(p, 2 * c + 1) == 2 * BitAnd(p / 2, c) + p % 2
  {
    assert (2 * c + 1) / 2 == c;
  }

  /** Masking with `2^k - 1` is the remainder modulo `2^k`: the fast modulo of the ring queue. */
  lemma {:induction false} MaskIsModulo(p: nat, k: nat)
    ensures BitAnd(p, Pow2(k) - 1) == p % Pow2(k)
  {
    if k > 0 {
      var m := Pow2(k - 1);
      assert Pow2(k) - 1 == 2 * (m - 1) + 1;
      BitAndOddMask(p, m - 1);
      MaskIsModulo(p / 2, k - 1);
      HalvingMod(p, m);
    }
  }

  /** `clamp` on integer types; the C++ asserts that `to - from` exceeds an epsilon, i.e. `from < to`. */
  function Clamp(val: int, from: int, to: int): (r: int)
    requires from < to
    ensures from <= r <= to
    ensures from <= val <= to ==> r == val
    ensures val < from ==> r == from
    ensures val > to ==> r == to
  {
    if val < from then from else if val > to then to else val
  }

  /** Variadic `in(base, o1, ..., on)`, the candidates given as a sequence. */
  function In<T(==)>(base: T, candidates: seq<T>): (r: bool)
    ensures r <==> base in candidates
  {
    if |candidates| == 0 then false
    else base == candidates[0] || In(base, candidates[1..])
  }
}

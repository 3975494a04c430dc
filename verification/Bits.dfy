/** Bitwise operations on two's complement integers, as Go applies them to int64 values. */
module Bits {

  function Abs(x: int): nat { if x < 0 then -x else x }

  predicate IsFlat(x: int) { x == 0 || x == -1 }

  function Or(a: int, b: int): int
    decreases Abs(a) + Abs(b)
  {
    if IsFlat(a) && IsFlat(b) then (if a == 0 && b == 0 then 0 else -1)
    else 2 * Or(a / 2, b / 2) + (if a % 2 == 1 || b % 2 == 1 then 1 else 0)
  }

  function And(a: int, b: int): int
    decreases Abs(a) + Abs(b)
  {
    if IsFlat(a) && IsFlat(b) then (if a == -1 && b == -1 then -1 else 0)
    else 2 * And(a / 2, b / 2) + (if a % 2 == 1 && b % 2 == 1 then 1 else 0)
  }

  function Pow2(k: nat): nat
    ensures Pow2(k) > 0
  {
    if k == 0 then 1 else 2 * Pow2(k - 1)
  }

  const INT64_LIMIT: int := 0x8000_0000_0000_0000

  /** The int64 that a shifted value wraps around to. */
  function Wrap64(x: int): (r: int)
    ensures -INT64_LIMIT <= r < INT64_LIMIT
    ensures -INT64_LIMIT <= x < INT64_LIMIT ==> r == x
  {
    (x + INT64_LIMIT) % (2 * INT64_LIMIT) - INT64_LIMIT
  }

  lemma {:induction false} OrZero(a: int)
    ensures Or(a, 0) == a
    decreases Abs(a)
  {
    if !IsFlat(a) { OrZero(a / 2); }
  }

  /** Or-ing a multiple of 2^k with something below 2^k adds them. */
  lemma {:induction false} OrDisjoint(hi: int, k: nat, lo: nat)
    requires lo < Pow2(k)
    ensures Or(hi * Pow2(k), lo) == hi * Pow2(k) + lo
    decreases k
  {
    if k == 0 {
      OrZero(hi);
    } else {
      var p := Pow2(k - 1);
      assert hi * Pow2(k) == 2 * (hi * p);
      OrDisjoint(hi, k - 1, lo / 2);
      if IsFlat(hi * Pow2(k)) && IsFlat(lo) { assert hi * p == 0; }
    }
  }

  lemma OrDouble(a: int, b: int)
    ensures Or(2 * a, 2 * b) == 2 * Or(a, b)
  {}

  /** A common factor 2^k comes out of an or. */
  lemma {:induction false} OrScaled(a: int, b: int, k: nat)
    ensures Or(a * Pow2(k), b * Pow2(k)) == Or(a, b) * Pow2(k)
    decreases k
  {
    if k > 0 {
      var p := Pow2(k - 1);
      OrScaled(a, b, k - 1);
      OrDouble(a * p, b * p);
      Regroup(a, p);
      Regroup(b, p);
      Regroup(Or(a, b), p);
    }
  }

  lemma Regroup(a: int, p: nat)
    ensures a * (2 * p) == 2 * (a * p)
  {}

  lemma OrOne(a: int)
    ensures Or(a, 1) == a + 1 - a % 2
  {
    OrZero(a / 2);
  }

  /** Masking with 2^k - 1 is the remainder by 2^k, for negative numbers as well. */
  lemma {:induction false} AndMask(a: int, k: nat)
    ensures And(a, Pow2(k) - 1) == a % Pow2(k)
    decreases k
  {
    if k == 0 {
      AndZero(a);
    } else {
      var p := Pow2(k - 1);
      assert (Pow2(k) - 1) / 2 == p - 1 && (Pow2(k) - 1) % 2 == 1;
      AndMask(a / 2, k - 1);
      ModDouble(a, p);
    }
  }

  lemma {:induction false} AndZero(a: int)
    ensures And(a, 0) == 0
    decreases Abs(a)
  {
    if !IsFlat(a) { AndZero(a / 2); }
  }

  lemma ModDouble(a: int, p: nat)
    requires p > 0
    ensures a % (2 * p) == 2 * (a / 2 % p) + a % 2
  {
    var q, r := a / 2 / p, a / 2 % p;
    assert a == (2 * p) * q + (2 * r + a % 2);
    ModUnique(a, 2 * p, q, 2 * r + a % 2);
  }

  lemma ModUnique(a: int, d: nat, q: int, r: nat)
    requires d > 0 && a == d * q + r && r < d
    ensures a % d == r && a / d == q
  {
    var q', r' := a / d, a % d;
    assert a == d * q' + r';
    Apart(d, q, q');
    Apart(d, q', q);
  }

  lemma Apart(d: nat, x: int, y: int)
    ensures x > y ==> d * x >= d * y + d
  {
    if x > y { assert d * (x - y - 1) >= 0; }
  }
}

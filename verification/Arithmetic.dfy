/**
 Arithmetic on doubles is a parameter: every theorem holds for all operations, and where constant
 folding needs it, for all operations that are exact on integers of magnitude up to 2^53.
 IEEE 754 doubles are one instance; INTEGER_ARITHMETIC of module Correctness shows that the requirement can be met.
 */
module Arithmetic {
  import opened Syntax

  datatype Arith = Arith(
    add: (Double, Double) -> Double,
    sub: (Double, Double) -> Double,
    mul: (Double, Double) -> Double,
    div: (Double, Double) -> Double,
    fmod: (Double, Double) -> Double,
    pow: (Double, Double) -> Double,
    neg: Double -> Double,
    eq: (Double, Double) -> bool,
    lt: (Double, Double) -> bool,
    lte: (Double, Double) -> bool,
    isZero: Double -> bool,
    ofInt: int -> Double,          // conversion from an integer
    toInt: Double -> int,          // the cast to int64_t
    asInt: Double -> Option<int>,  // the integer a double is equal to, if any
    format: Double -> seq<Byte>    // printf with %.14g
  )

  // rem_euclid: the remainder moved into the range of a Euclidean one.
  function RemEuclid(ar: Arith, a: Double, b: Double): Double {
    var r := ar.fmod(a, b);
    if ar.lt(r, ar.ofInt(0)) then ar.add(r, if ar.lt(b, ar.ofInt(0)) then ar.neg(b) else b) else r
  }

  // Rounding towards zero, as fmod does with the quotient.
  function Trunc(x: real): int {
    if x < 0.0 then -((-x).Floor) else x.Floor
  }

  // The doubles stand for these numbers, and the operations of rem_euclid on a and b are exact.
  ghost predicate ExactRemainder(ar: Arith, val: Double -> real, a: Double, b: Double) {
    var r, zero := ar.fmod(a, b), ar.ofInt(0);
    && val(b) != 0.0 && val(zero) == 0.0 && val(ar.neg(b)) == -val(b)
    && val(r) == val(a) - val(b) * Trunc(val(a) / val(b)) as real
    && (forall x | x in {r, b} :: ar.lt(x, zero) <==> val(x) < 0.0)
    && (forall x | x in {b, ar.neg(b)} :: val(ar.add(r, x)) == val(r) + val(x))
  }

  /** rem_euclid is the remainder of a division whose remainder is never negative, for every sign of the
      operands. */
  lemma RemainderIsEuclidean(ar: Arith, val: Double -> real, a: Double, b: Double) returns (k: int)
    requires ExactRemainder(ar, val, a, b)
    ensures var r := val(RemEuclid(ar, a, b));
            && val(a) == val(b) * k as real + r && 0.0 <= r
            && r < (if val(b) < 0.0 then -val(b) else val(b))
  {
    var x, y, r := val(a), val(b), val(ar.fmod(a, b));
    var q := Trunc(x / y);
    TruncBounds(x, y, q, r);
    if r >= 0.0 {
      k := q;
    } else {
      k := if y < 0.0 then q + 1 else q - 1;
      Distribute(y, q as real, (k - q) as real, k as real);
    }
  }

  // The remainder is smaller than the divisor.
  lemma TruncBounds(x: real, y: real, q: int, r: real)
    requires y != 0.0 && q == Trunc(x / y) && r == x - y * q as real
    ensures if y < 0.0 then y < r < -y else -y < r < y
  {
    var z := x / y;
    assert y * z == x;
    var d := z - q as real;
    Distribute(y, q as real, d, z);
    assert r == y * d;
    Scaled(y, d);
  }

  lemma Distribute(a: real, b: real, c: real, z: real)
    requires z == b + c
    ensures a * z == a * b + a * c
  {
  }

  lemma Scaled(y: real, d: real)
    requires -1.0 < d < 1.0 && y != 0.0
    ensures if y < 0.0 then y < y * d < -y else -y < y * d < y
  {
  }

  const MAX_EXACT: int := 0x20_0000_0000_0000

  predicate Small(i: int) {
    -MAX_EXACT <= i <= MAX_EXACT
  }

  function Power(a: int, b: nat): int {
    if b == 0 then 1 else a * Power(a, b - 1)
  }

  /** What IEEE 754 guarantees on the literals of a program, which are never negative: an operation whose
      exact result is an integer of magnitude up to 2^53 gives that integer. */
  predicate ExactAt(ar: Arith, op: BinaryOp, a: nat, b: nat) {
    var x, y := ar.ofInt(a), ar.ofInt(b);
    match op
    case Add => Small(a + b) ==> ar.add(x, y) == ar.ofInt(a + b)
    case Sub => ar.sub(x, y) == ar.ofInt(a - b)
    case Mul => Small(a * b) ==> ar.mul(x, y) == ar.ofInt(a * b)
    case Div => b != 0 && a % b == 0 ==> ar.div(x, y) == ar.ofInt(a / b)
    case Mod => b != 0 ==> ar.fmod(x, y) == ar.ofInt(a % b)
    case Pow => Small(Power(a, b)) ==> ar.pow(x, y) == ar.ofInt(Power(a, b))
    case _ => true
  }

  predicate ExactUnary(ar: Arith, a: int) {
    var x := ar.ofInt(a);
    ar.toInt(x) == a && ar.lt(x, ar.ofInt(0)) == (a < 0) && (a != 0 ==> ar.neg(x) == ar.ofInt(-a))
  }

  ghost predicate Exact(ar: Arith) {
    && (forall op, a: nat, b: nat | Small(a) && Small(b) :: ExactAt(ar, op, a, b))
    && (forall a | Small(a) :: ExactUnary(ar, a))
  }

  // The signs of doubles: conversion rounds i and -i alike, and no negative number is a positive one.
  ghost predicate Signed(ar: Arith) {
    && (forall i: int | 0 < i :: ar.neg(ar.ofInt(i)) == ar.ofInt(-i))
    && (forall i: int, j: int | i < 0 < j :: ar.ofInt(i) != ar.ofInt(j))
  }
}

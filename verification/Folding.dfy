/**
 Constant folding agrees with the machine: the constant that replaces an operation on literals is the
 value the operation computes (src/compiler.c and vm_execute_math in src/vm.c).
 */
module Folding {
  import opened Syntax
  import opened Arithmetic
  import opened Values
  import opened Primitives
  import opened Codegen
  import opened Domain

  // What a literal pushes when it is not folded.
  function LiteralValue(ar: Arith, e: Expr): Value
    requires IsLiteral(e)
  {
    Num(if e.Int? then ar.ofInt(e.number) else e.double)
  }

  lemma FoldIntExact(ar: Arith, op: BinaryOp, a: nat, b: nat)
    requires Exact(ar) && Small(a) && Small(b)
    requires op.Add? || op.Sub? || op.Mul? || op.Div? || op.Mod? || op.Pow?
    requires op.Mod? ==> b != 0
    requires op.Add? ==> Small(a + b)
    requires op.Mul? ==> Small(a * b)
    requires op.Pow? ==> Small(Power(a, b))
    ensures FoldInt(ar, op, a, b) == NumericOp(ar, op, ar.ofInt(a), ar.ofInt(b))
  {
    hide Exact, Power;
    ExactInstance(ar, op, a, b);
    match op
    case Add => Wrap64Small(a + b);
    case Sub => Wrap64Small(a - b);
    case Mul => Wrap64Small(a * b);
    case Div =>
    case Mod => ExactOne(ar, a % b);
    case Pow => ExactOne(ar, Power(a, b));
  }

  lemma ExactInstance(ar: Arith, op: BinaryOp, a: nat, b: nat)
    requires Exact(ar) && Small(a) && Small(b)
    ensures ExactAt(ar, op, a, b)
  {
    hide ExactAt;
  }

  lemma ExactOne(ar: Arith, a: int)
    requires Exact(ar) && Small(a)
    ensures ExactUnary(ar, a)
  {
    hide ExactAt;
  }

  lemma Wrap64Small(i: int)
    requires Small(i)
    ensures Wrap64(i) == i
  {
  }

  lemma FoldBinaryCorrect(ar: Arith, heap: Heap, op: BinaryOp, l: Expr, r: Expr)
    requires Exact(ar) && Folds(op, l, r) && FoldBinarySafe(op, l, r)
    ensures Apply(ar, heap, op, LiteralValue(ar, l), LiteralValue(ar, r)) == Done((Num(FoldBinary(ar, op, l, r)), heap))
  {
    hide Exact;
    if FoldsInt(op, l, r) {
      FoldIntExact(ar, op, l.number, r.number);
    }
  }

  lemma FoldUnaryCorrect(ar: Arith, heap: Heap, e: Expr)
    requires Exact(ar) && IsLiteral(e) && FoldUnarySafe(e)
    ensures ApplyUnary(ar, heap, Neg, LiteralValue(ar, e)) == Done(Num(FoldUnary(ar, e)))
  {
    hide Exact;
    if e.Int? {
      var i: int := e.number;
      ExactOne(ar, i);
      Wrap64Small(-i);
    }
  }

  /** The literals on which folding is in the domain: up to 2^53, with a sum, product or power up to 2^53. */
  lemma {:induction false} SafeRange(a: Bits64, b: Bits64, d: Double)
    ensures forall op | op in {Add, Sub, Mul, Div, Mod, Pow} && (op == Mod ==> b != 0) ::
              Folds(op, Expr.Int(a), Expr.Int(b))
              && (FoldBinarySafe(op, Expr.Int(a), Expr.Int(b)) <==>
                  && a <= 9007199254740992 && b <= 9007199254740992
                  && (op == Add ==> a + b <= 9007199254740992) && (op == Mul ==> a * b <= 9007199254740992)
                  && (op == Pow ==> -9007199254740992 <= Power(a, b) <= 9007199254740992))
    ensures forall op | op in {Add, Sub, Mul, Div, Pow} ::
              Folds(op, Expr.Int(a), Expr.Float(d))
              && (FoldBinarySafe(op, Expr.Int(a), Expr.Float(d)) <==> a <= 9007199254740992)
    ensures FoldUnarySafe(Expr.Int(a)) <==> 0 < a <= 9007199254740992
    ensures FoldUnarySafe(Expr.Float(d))
  {
    hide Power;
  }

  // ----- the integers of the compiler -----

  /** A 64-bit result is congruent to the exact one and in range; a literal above 2^63 - 1 is read as a negative
      number. */
  lemma WrapMeans(i: int, n: Bits64) returns (k: int, j: int)
    ensures Wrap64(i) == i + k * 18446744073709551616
    ensures -9223372036854775808 <= Wrap64(i) <= 9223372036854775807
    ensures ToInt64(n) == n + j * 18446744073709551616
    ensures -9223372036854775808 <= ToInt64(n) <= 9223372036854775807
  {
    var q := i / 18446744073709551616;
    k := if i % 18446744073709551616 < 9223372036854775808 then -q else -q - 1;
    j := if n < 9223372036854775808 then 0 else -1;
  }

  // A product without its sign.
  lemma SignedProduct(a: int, b: int, q: nat, r: nat)
    requires b != 0 && Abs(a) == Abs(b) * q + r
    ensures if (a < 0) == (b < 0) then (if a < 0 then -a == -b * q + r else a == b * q + r)
            else (if a < 0 then -a == b * q + r else a == -b * q + r)
  {
  }

  lemma Negated(b: int, q: int)
    ensures b * -q == -b * q == -(b * q)
  {
  }

  /** Division and remainder of the compiler: the quotient rounds towards zero and the remainder has the sign of the
      dividend. */
  lemma DivisionMeans(a: int, b: int)
    requires b != 0
    ensures a == b * TruncDiv(a, b) + TruncMod(a, b)
    ensures if b < 0 then b < TruncMod(a, b) < -b else -b < TruncMod(a, b) < b
    ensures TruncMod(a, b) == 0 || (TruncMod(a, b) < 0 <==> a < 0)
  {
    var q: nat, r: nat := Abs(a) / Abs(b), Abs(a) % Abs(b);
    SignedProduct(a, b, q, r);
    Negated(b, q);
  }

  lemma WrapIs(i: int, c: int, k: int)
    requires -9223372036854775808 <= c <= 9223372036854775807 && c == i + k * 18446744073709551616
    ensures Wrap64(i) == c
  {
    var k', _ := WrapMeans(i, 0);
  }

  lemma PositiveMultiple(b: int, d: int)
    requires b > 0 && d > 0
    ensures b * d >= b
  {
    if d > 1 {
      PositiveMultiple(b, d - 1);
      assert b * d == b * (d - 1) + b;
    }
  }

  lemma Signs(b: int, d: int)
    ensures (-b) * d == -(b * d) && b * (-d) == -(b * d) && (-b) * (-d) == b * d
  {
  }

  lemma Multiple(b: int, d: int)
    requires b != 0 && d != 0
    ensures Abs(b * d) >= Abs(b)
  {
    Signs(b, d);
    PositiveMultiple(Abs(b), Abs(d));
  }

  lemma DivisionOne(a: int, b: int, c: int)
    requires b != 0 && a == b * c
    ensures TruncMod(a, b) == 0 && TruncDiv(a, b) == c
  {
    DivisionMeans(a, b);
    hide TruncMod, TruncDiv;
    QuotientOne(b, c, TruncDiv(a, b), TruncMod(a, b));
  }

  lemma QuotientOne(b: int, c: int, q: int, r: int)
    requires b != 0 && b * c == b * q + r && Abs(r) < Abs(b)
    ensures c == q && r == 0
  {
    Difference(b, c, q);
    if c != q {
      Multiple(b, c - q);
    }
  }

  lemma Difference(b: int, c: int, q: int)
    ensures b * (c - q) == b * c - b * q
  {
  }

  /** What two integer literals fold to, on 64-bit integers a and b: sum, difference and product wrap around; a
      division that comes out is exact, and any other is left to the doubles; a power of a negative exponent is that
      of the doubles, and any other is cut to an integer. */
  lemma FoldIntMeans(ar: Arith, a: int, b: int, c: int, k: int)
    requires -9223372036854775808 <= c <= 9223372036854775807
    ensures c == a + b + k * 18446744073709551616 ==> FoldInt(ar, Add, a, b) == ar.ofInt(c)
    ensures c == a - b + k * 18446744073709551616 ==> FoldInt(ar, Sub, a, b) == ar.ofInt(c)
    ensures c == a * b + k * 18446744073709551616 ==> FoldInt(ar, Mul, a, b) == ar.ofInt(c)
    ensures b != 0 && a == b * c ==> FoldInt(ar, Div, a, b) == ar.ofInt(c)
    ensures b == 0 || (forall d :: a != b * d) ==> FoldInt(ar, Div, a, b) == ar.div(ar.ofInt(a), ar.ofInt(b))
    ensures b < 0 ==> FoldInt(ar, Pow, a, b) == ar.pow(ar.ofInt(a), ar.ofInt(b))
    ensures b >= 0 ==> FoldInt(ar, Pow, a, b) == ar.ofInt(ar.toInt(ar.pow(ar.ofInt(a), ar.ofInt(b))))
  {
    hide Wrap64, TruncMod, TruncDiv;
    if c == a + b + k * 18446744073709551616 {
      WrapIs(a + b, c, k);
    }
    if c == a - b + k * 18446744073709551616 {
      WrapIs(a - b, c, k);
    }
    if c == a * b + k * 18446744073709551616 {
      WrapIs(a * b, c, k);
    }
    if b != 0 {
      DivisionMeans(a, b);
      if a == b * c {
        DivisionOne(a, b, c);
      }
    }
  }

  /** The negation of an integer literal wraps around in the same way; that of a float literal is the double's. */
  lemma FoldUnaryMeans(ar: Arith, n: Bits64, c: int, k: int, d: Double)
    requires -9223372036854775808 <= c <= 9223372036854775807
    ensures c + n == k * 18446744073709551616 ==> FoldUnary(ar, Expr.Int(n)) == ar.ofInt(c)
    ensures FoldUnary(ar, Expr.Float(d)) == ar.neg(d)
  {
    hide Wrap64, ToInt64;
    var _, j := WrapMeans(0, n);
    if c + n == k * 18446744073709551616 {
      WrapIs(-ToInt64(n), c, k + j);
    }
  }
}

/**
 Which operator takes its operands first, with the operators named. From the weakest: assignment; the comparisons;
 + and -; *, / and %; **; the prefix operators; calls, subscripts, slices and members.
 */
module Strength {
  import opened Syntax
  import opened Grammar
  import opened Pratt
  import opened Recognition

  // p takes its operands after q.
  predicate Weaker(p: BinaryOp, q: BinaryOp) {
    || (p in {Eql, Neq, Lt, Gt, Lte, Gte} && q in {Add, Sub, Mul, Div, Mod, Pow})
    || (p in {Add, Sub} && q in {Mul, Div, Mod, Pow})
    || (p in {Mul, Div, Mod} && q == Pow)
  }

  predicate Alike(p: BinaryOp, q: BinaryOp) {
    || (p in {Eql, Neq, Lt, Gt, Lte, Gte} && q in {Eql, Neq, Lt, Gt, Lte, Gte})
    || (p in {Add, Sub} && q in {Add, Sub})
    || (p in {Mul, Div, Mod} && q in {Mul, Div, Mod})
    || (p == Pow && q == Pow)
  }

  // A name, a literal, an array, a map, a function, a form in parentheses, or any of these with calls, subscripts,
  // slices and members after it.
  ghost predicate PostfixForm(ts: seq<Lex>, e: Expr, last: bool) {
    || (Bare(ts, e, last) && !e.Binary? && !e.Assign? && !e.Unary?)
    || (|ts| >= 2 && ts[0] == OParen && ts[|ts| - 1] == CParen && ParseExpr(ts[1..], LOWEST) == Ok(e, [CParen]))
  }

  // A postfix form, perhaps after prefix operators.
  ghost predicate Operand(ts: seq<Lex>, e: Expr, last: bool) {
    PostfixForm(ts, e, last) || (Bare(ts, e, last) && e.Unary?)
  }

  // The expression that `return` takes.
  ghost predicate Reads(ts: seq<Lex>, e: Expr) {
    ParseStmt([ReturnTok] + ts) == Ok(Return(e), [])
  }

  lemma {:induction false} ReadsWhole(ts: seq<Lex>, e: Expr)
    requires Spells(ts, e, ASSIGN, true)
    ensures Reads(ts, e)
  {
    hide Spells, ParseExpr;
    assert ts + [] == ts && Rest([ReturnTok] + ts) == ts;
    ReadWhole(ts, e, []);
    ReturnFirst([ReturnTok] + ts, e, []);
  }

  lemma {:induction false} ParensSpell(ts: seq<Lex>, e: Expr, m: nat, last: bool)
    requires |ts| >= 2 && ts[0] == OParen && ts[|ts| - 1] == CParen && ParseExpr(ts[1..], LOWEST) == Ok(e, [CParen])
    ensures Spells(ts, e, m, last)
  {
    hide Bare, ParseExpr;
    PrattParses(ts[1..], LOWEST, e, [CParen]);
    var used :| ts[1..] == used + [CParen] && Spells(used, e, ASSIGN, Last([CParen]));
    assert used == ts[1..|ts| - 1];
  }

  // A postfix form may stand anywhere.
  lemma {:induction false} PostfixSpells(ts: seq<Lex>, e: Expr, last: bool)
    requires PostfixForm(ts, e, last)
    ensures Spells(ts, e, POSTFIX, last)
  {
    hide Spells, Bare, ParseExpr;
    if Bare(ts, e, last) && !e.Binary? && !e.Assign? && !e.Unary? {
      IsBare(ts, e, POSTFIX, last);
    } else {
      ParensSpell(ts, e, POSTFIX, last);
    }
  }

  lemma {:induction false} OperandSpells(ts: seq<Lex>, e: Expr, last: bool, m: nat)
    requires Operand(ts, e, last) && m <= PREFIX
    ensures Spells(ts, e, m, last)
  {
    hide Spells, Bare, ParseExpr;
    if PostfixForm(ts, e, last) {
      PostfixSpells(ts, e, last);
      Lower(ts, e, POSTFIX, m, last);
    } else {
      IsBare(ts, e, m, last);
    }
  }

  // ----- two binary operators -----

  lemma OperatorOrder(p: BinaryOp, q: BinaryOp)
    ensures Weaker(p, q) ==> Precedence(OpTok(p)) < Precedence(OpTok(q))
    ensures Alike(p, q) ==> Precedence(OpTok(p)) == Precedence(OpTok(q))
    ensures ASSIGN < Precedence(OpTok(p)) < PREFIX
  {
  }

  // The right operand is made first.
  lemma {:induction false} RightFirst(x: seq<Lex>, o: Lex, y: seq<Lex>, o': Lex, z: seq<Lex>, a: Expr, b: Expr, c: Expr)
    requires (o.OpTok? || o.AssignTok?) && (o'.OpTok? || o'.AssignTok?) && Precedence(o) < Precedence(o') < PREFIX
    requires Operand(x, a, false) && Operand(y, b, false) && Operand(z, c, true)
    ensures Reads(x + [o] + y + [o'] + z, Applied(o, a, Applied(o', b, c)))
  {
    hide Spells, Bare, ParseExpr, Operand, Reads;
    var m, n, right := Precedence(o), Precedence(o'), y + ([o'] + z);
    var whole := x + ([o] + right);
    OperandSpells(x, a, false, m);
    OperandSpells(y, b, false, n);
    OperandSpells(z, c, true, n + 1);
    BareInfix(y, o', z, b, c, n, true, right);
    IsBare(right, Applied(o', b, c), m + 1, true);
    BareInfix(x, o, right, a, Applied(o', b, c), m, true, whole);
    IsBare(whole, Applied(o, a, Applied(o', b, c)), ASSIGN, true);
    ReadsWhole(whole, Applied(o, a, Applied(o', b, c)));
    assert whole == x + [o] + y + [o'] + z;
  }

  // The left operand is made first.
  lemma {:induction false} LeftFirst(x: seq<Lex>, o: Lex, y: seq<Lex>, o': Lex, z: seq<Lex>, a: Expr, b: Expr, c: Expr)
    requires (o.OpTok? || o.AssignTok?) && (o'.OpTok? || o'.AssignTok?) && Precedence(o') <= Precedence(o) < PREFIX
    requires Operand(x, a, false) && Operand(y, b, false) && Operand(z, c, true)
    ensures Reads(x + [o] + y + [o'] + z, Applied(o', Applied(o, a, b), c))
  {
    hide Spells, Bare, ParseExpr, Operand, Reads;
    var m, n, left := Precedence(o), Precedence(o'), x + ([o] + y);
    var whole := left + ([o'] + z);
    OperandSpells(x, a, false, m);
    OperandSpells(y, b, false, m + 1);
    OperandSpells(z, c, true, n + 1);
    BareInfix(x, o, y, a, b, m, false, left);
    IsBare(left, Applied(o, a, b), n, false);
    BareInfix(left, o', z, Applied(o, a, b), c, n, true, whole);
    IsBare(whole, Applied(o', Applied(o, a, b), c), ASSIGN, true);
    ReadsWhole(whole, Applied(o', Applied(o, a, b), c));
    assert whole == x + [o] + y + [o'] + z;
  }

  /** Of two operators of different strength the stronger takes its operands first, on either side; of two of the
      same strength the left one does. */
  lemma {:induction false} StrongerFirst(x: seq<Lex>, p: BinaryOp, y: seq<Lex>, q: BinaryOp, z: seq<Lex>, a: Expr,
      b: Expr, c: Expr)
    requires Operand(x, a, false) && Operand(y, b, false) && Operand(z, c, true)
    ensures Weaker(p, q) ==> Reads(x + [OpTok(p)] + y + [OpTok(q)] + z, Binary(p, a, Binary(q, b, c)))
    ensures Weaker(q, p) || Alike(p, q) ==>
              Reads(x + [OpTok(p)] + y + [OpTok(q)] + z, Binary(q, Binary(p, a, b), c))
    ensures Weaker(p, q) || Weaker(q, p) || Alike(p, q)
  {
    hide Operand, Precedence, Reads;
    OperatorOrder(p, q);
    OperatorOrder(q, p);
    if Weaker(p, q) {
      RightFirst(x, OpTok(p), y, OpTok(q), z, a, b, c);
    } else {
      LeftFirst(x, OpTok(p), y, OpTok(q), z, a, b, c);
    }
  }

  /** Assignment, plain or with an operator, is weaker than every binary operator, and groups to the left. */
  lemma {:induction false} AssignmentLast(x: seq<Lex>, op: Option<BinaryOp>, y: seq<Lex>, q: BinaryOp,
      op': Option<BinaryOp>, z: seq<Lex>, a: Expr, b: Expr, c: Expr)
    requires Operand(x, a, false) && Operand(y, b, false) && Operand(z, c, true)
    ensures Reads(x + [AssignTok(op)] + y + [OpTok(q)] + z, Assign(op, a, Binary(q, b, c)))
    ensures Reads(x + [OpTok(q)] + y + [AssignTok(op)] + z, Assign(op, Binary(q, a, b), c))
    ensures Reads(x + [AssignTok(op)] + y + [AssignTok(op')] + z, Assign(op', Assign(op, a, b), c))
  {
    hide Operand, Reads;
    OperatorOrder(q, q);
    RightFirst(x, AssignTok(op), y, OpTok(q), z, a, b, c);
    LeftFirst(x, OpTok(q), y, AssignTok(op), z, a, b, c);
    LeftFirst(x, AssignTok(op), y, AssignTok(op'), z, a, b, c);
  }

  // ----- prefix operators and postfix forms -----

  lemma {:induction false} PrefixOperand(u: UnaryOp, x: seq<Lex>, a: Expr, last: bool)
    requires Operand(x, a, last)
    ensures Operand([UnaryTok(u)] + x, Unary(u, a), last)
  {
    hide Spells, ParseExpr, Operand;
    OperandSpells(x, a, last, PREFIX);
    assert ([UnaryTok(u)] + x)[1..] == x;
    assert Bare([UnaryTok(u)] + x, Unary(u, a), last);
    UnaryOperand([UnaryTok(u)] + x, u, a, last);
  }

  lemma UnaryOperand(ts: seq<Lex>, u: UnaryOp, a: Expr, last: bool)
    requires Bare(ts, Unary(u, a), last)
    ensures Operand(ts, Unary(u, a), last)
  {
    hide Bare;
  }

  /** A prefix operator takes its operand before every binary operator, `**` included, and before assignment, whether
      it stands before the left operand or before the right one. */
  lemma {:induction false} PrefixFirst(u: UnaryOp, x: seq<Lex>, q: BinaryOp, y: seq<Lex>, op: Option<BinaryOp>, a: Expr,
      b: Expr)
    requires Operand(x, a, false) && Operand(y, b, true)
    ensures Reads([UnaryTok(u)] + x + [OpTok(q)] + y, Binary(q, Unary(u, a), b))
    ensures Reads(x + [OpTok(q)] + [UnaryTok(u)] + y, Binary(q, a, Unary(u, b)))
    ensures Reads([UnaryTok(u)] + x + [AssignTok(op)] + y, Assign(op, Unary(u, a), b))
    ensures Reads(x + [AssignTok(op)] + [UnaryTok(u)] + y, Assign(op, a, Unary(u, b)))
  {
    hide Operand, Reads;
    PrefixOperand(u, x, a, false);
    PrefixOperand(u, y, b, true);
    OperatorOrder(q, q);
    OneInfix([UnaryTok(u)] + x, OpTok(q), y, Unary(u, a), b);
    OneInfix(x, OpTok(q), [UnaryTok(u)] + y, a, Unary(u, b));
    OneInfix([UnaryTok(u)] + x, AssignTok(op), y, Unary(u, a), b);
    OneInfix(x, AssignTok(op), [UnaryTok(u)] + y, a, Unary(u, b));
    assert x + [OpTok(q)] + ([UnaryTok(u)] + y) == x + [OpTok(q)] + [UnaryTok(u)] + y;
    assert x + [AssignTok(op)] + ([UnaryTok(u)] + y) == x + [AssignTok(op)] + [UnaryTok(u)] + y;
  }

  lemma {:induction false} OneInfix(x: seq<Lex>, o: Lex, y: seq<Lex>, a: Expr, b: Expr)
    requires (o.OpTok? || o.AssignTok?) && Precedence(o) < PREFIX && Operand(x, a, false) && Operand(y, b, true)
    ensures Reads(x + [o] + y, Applied(o, a, b))
  {
    hide Spells, Bare, ParseExpr, Operand, Reads;
    var m, whole := Precedence(o), x + ([o] + y);
    OperandSpells(x, a, false, m);
    OperandSpells(y, b, true, m + 1);
    BareInfix(x, o, y, a, b, m, true, whole);
    IsBare(whole, Applied(o, a, b), ASSIGN, true);
    ReadsWhole(whole, Applied(o, a, b));
    assert whole == x + [o] + y;
  }

  lemma {:induction false} Forms(x: seq<Lex>, a: Expr, n: Name, k: seq<Lex>, key: Expr, last: bool)
    requires PostfixForm(x, a, false) && ParseExpr(k + [CBracket], LOWEST) == Ok(key, [CBracket])
    ensures PostfixForm(x + [Dot, Id(n)], Member(a, n), last)
    ensures PostfixForm(x + [OParen, CParen], Call(a, []), last)
    ensures PostfixForm(x + [OBracket] + k + [CBracket], Subscript(a, key), last)
    ensures PostfixForm(x + [OBracket, Colon, CBracket], Slice(a, None, None), last)
  {
    hide Spells, Bare, ParseExpr, PostfixForm;
    PostfixSpells(x, a, false);
    PrattParses(k + [CBracket], LOWEST, key, [CBracket]);
    var inner :| k + [CBracket] == inner + [CBracket] && Spells(inner, key, ASSIGN, Last([CBracket]));
    assert inner == (inner + [CBracket])[..|inner|] && k == (k + [CBracket])[..|k|];
    BareForms(x, a, n, k, key, last);
    IsForm(x + [Dot, Id(n)], Member(a, n), last);
    IsForm(x + [OParen, CParen], Call(a, []), last);
    IsForm(x + [OBracket] + k + [CBracket], Subscript(a, key), last);
    IsForm(x + [OBracket, Colon, CBracket], Slice(a, None, None), last);
  }

  lemma {:induction false} BareForms(x: seq<Lex>, a: Expr, n: Name, k: seq<Lex>, key: Expr, last: bool)
    requires Spells(x, a, POSTFIX, false) && Spells(k, key, ASSIGN, true)
    ensures Bare(x + [Dot, Id(n)], Member(a, n), last)
    ensures Bare(x + [OParen, CParen], Call(a, []), last)
    ensures Bare(x + [OBracket] + k + [CBracket], Subscript(a, key), last)
    ensures Bare(x + [OBracket, Colon, CBracket], Slice(a, None, None), last)
  {
    hide Spells, Bare;
    var call, sub, slice := x + [OParen, CParen], x + [OBracket] + k + [CBracket], x + [OBracket, Colon, CBracket];
    MemberForm(x, a, n, last);
    assert SpellsItems([CParen], [], CParen);
    assert call == x + ([OParen] + [CParen]);
    BareCall(x, [CParen], a, [], last, call);
    assert sub == x + ([OBracket] + (k + [CBracket]));
    BareSubscript(x, k, a, key, last, sub);
    assert slice == x + ([OBracket] + ([] + ([Colon] + ([] + [CBracket]))));
    BareSlice(x, [], [], a, None, None, last, slice);
  }

  lemma MemberForm(x: seq<Lex>, a: Expr, n: Name, last: bool)
    requires Spells(x, a, POSTFIX, false)
    ensures Bare(x + [Dot, Id(n)], Member(a, n), last)
  {
    hide Spells;
    var ts := x + [Dot, Id(n)];
    assert ts[..|ts| - 2] == x;
  }

  lemma IsForm(ts: seq<Lex>, e: Expr, last: bool)
    requires Bare(ts, e, last) && !e.Binary? && !e.Assign? && !e.Unary?
    ensures PostfixForm(ts, e, last)
  {
    hide Bare;
  }

  lemma {:induction false} OnePrefix(u: UnaryOp, x: seq<Lex>, a: Expr)
    requires PostfixForm(x, a, true)
    ensures Reads([UnaryTok(u)] + x, Unary(u, a))
  {
    hide Spells, Bare, ParseExpr, PostfixForm, Operand, Reads;
    FormIsOperand(x, a);
    PrefixOperand(u, x, a, true);
    OperandSpells([UnaryTok(u)] + x, Unary(u, a), true, ASSIGN);
    ReadsWhole([UnaryTok(u)] + x, Unary(u, a));
  }

  lemma FormIsOperand(x: seq<Lex>, a: Expr)
    requires PostfixForm(x, a, true)
    ensures Operand(x, a, true)
  {
    hide PostfixForm;
  }

  /** What comes after an operand, a member, a call or a subscript, binds before a prefix operator, and so before
      every binary one. */
  lemma {:induction false} PostfixFirst(u: UnaryOp, x: seq<Lex>, a: Expr, n: Name, k: seq<Lex>, key: Expr)
    requires PostfixForm(x, a, false) && ParseExpr(k + [CBracket], LOWEST) == Ok(key, [CBracket])
    ensures Reads([UnaryTok(u)] + x + [Dot, Id(n)], Unary(u, Member(a, n)))
    ensures Reads([UnaryTok(u)] + x + [OParen, CParen], Unary(u, Call(a, [])))
    ensures Reads([UnaryTok(u)] + x + [OBracket] + k + [CBracket], Unary(u, Subscript(a, key)))
    ensures Reads([UnaryTok(u)] + x + [OBracket, Colon, CBracket], Unary(u, Slice(a, None, None)))
    ensures PostfixForm(x + [Dot, Id(n)], Member(a, n), false)
    ensures PostfixForm(x + [OParen, CParen], Call(a, []), false)
    ensures PostfixForm(x + [OBracket] + k + [CBracket], Subscript(a, key), false)
    ensures PostfixForm(x + [OBracket, Colon, CBracket], Slice(a, None, None), false)
  {
    hide Spells, ParseExpr, PostfixForm, Operand, Reads;
    Forms(x, a, n, k, key, false);
    Forms(x, a, n, k, key, true);
    OnePrefix(u, x + [Dot, Id(n)], Member(a, n));
    OnePrefix(u, x + [OParen, CParen], Call(a, []));
    OnePrefix(u, x + [OBracket] + k + [CBracket], Subscript(a, key));
    OnePrefix(u, x + [OBracket, Colon, CBracket], Slice(a, None, None));
    var p := [UnaryTok(u)];
    assert p + (x + [Dot, Id(n)]) == p + x + [Dot, Id(n)];
    assert p + (x + [OParen, CParen]) == p + x + [OParen, CParen];
    assert p + (x + [OBracket] + k + [CBracket]) == p + x + [OBracket] + k + [CBracket];
    assert p + (x + [OBracket, Colon, CBracket]) == p + x + [OBracket, Colon, CBracket];
  }
}

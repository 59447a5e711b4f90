/**
 The parser against an ordinary grammar. Expressions are layered: an operand of a lower layer must stand in
 parentheses, operators of one layer group to the left, a prefix operator may start any operand, and the body of
 an arrow function goes on for as long as it can. Statements have no separators: a statement that ends in an
 expression may not be followed by a token that would continue it, and an `else` belongs to the nearest `if`.
 */
module Pratt {
  import opened Syntax
  import opened Grammar

  const ATOM: nat := 8

  // The layer of a tree's root.
  function Level(e: Expr): (m: nat)
    ensures ASSIGN <= m <= ATOM
  {
    match e
    case Assign(_, _, _) => ASSIGN
    case Binary(op, _, _) => OpPrecedence(op)
    case Unary(_, _) => PREFIX
    case Subscript(_, _) => POSTFIX
    case Slice(_, _, _) => POSTFIX
    case Member(_, _) => POSTFIX
    case Call(_, _) => POSTFIX
    case _ => ATOM
  }

  // The layer of what parse_expr reads when it is given a precedence.
  function Start(p: nat): nat {
    if p < PREFIX then p + 1 else PREFIX
  }

  function UnaryTok(op: UnaryOp): Lex {
    match op
    case Neg => OpTok(Sub)
    case Not => Bang
  }

  // ----- the grammar -----

  // These tokens spell the expression where an operand of layer m may stand. `last`: what comes next does not
  // continue an expression.
  ghost predicate Spells(ts: seq<Lex>, e: Expr, m: nat, last: bool)
    decreases |ts|, 2
  {
    || (m <= Level(e) && Bare(ts, e, last))
    || (|ts| >= 2 && ts[0] == OParen && ts[|ts| - 1] == CParen && Spells(ts[1..|ts| - 1], e, ASSIGN, true))
  }

  // Without parentheses around it.
  ghost predicate Bare(ts: seq<Lex>, e: Expr, last: bool)
    decreases |ts|, 1
  {
    match e
    case Ident(x) => ts == [Id(x)]
    case Str(s) => ts == [StrLit(Some(s))]
    case Int(n) => ts == [IntLit(Some(n))]
    case Float(d) => ts == [FloatLit(Some(d))]
    case Array(items) => |ts| >= 1 && ts[0] == OBracket && SpellsItems(ts[1..], items, CBracket)
    case MapLit(items) => |ts| >= 1 && ts[0] == OBrace && SpellsPairs(ts[1..], items)
    case Unary(op, v) => |ts| >= 1 && ts[0] == UnaryTok(op) && Spells(ts[1..], v, PREFIX, last)
    case Binary(op, l, r) => exists i | 0 <= i < |ts| :: Infix(ts, i, OpTok(op), l, r, OpPrecedence(op), last)
    case Assign(op, l, r) => exists i | 0 <= i < |ts| :: Infix(ts, i, AssignTok(op), l, r, ASSIGN, last)
    case Call(f, args) => exists i | 0 <= i < |ts| :: CallAt(ts, i, f, args)
    case Member(t, x) => |ts| >= 2 && ts[|ts| - 2] == Dot && ts[|ts| - 1] == Id(x)
        && Spells(ts[..|ts| - 2], t, POSTFIX, false)
    case Subscript(t, k) => exists i | 0 <= i < |ts| :: SubscriptAt(ts, i, t, k)
    case Slice(t, a, b) => exists i, c | 0 <= i < c < |ts| :: SliceAt(ts, i, c, t, a, b)
    case Fn(f) => |ts| >= 1 && ts[0] == FnTok && SpellsFunction(ts[1..], f, last)
  }

  // Operators of one layer group to the left.
  ghost predicate Infix(ts: seq<Lex>, i: nat, op: Lex, l: Expr, r: Expr, q: nat, last: bool)
    requires i < |ts|
    decreases |ts|, 0
  {
    ts[i] == op && Spells(ts[..i], l, q, false) && Spells(ts[i + 1..], r, q + 1, last)
  }

  ghost predicate CallAt(ts: seq<Lex>, i: nat, f: Expr, args: seq<Expr>)
    requires i < |ts|
    decreases |ts|, 0
  {
    ts[i] == OParen && Spells(ts[..i], f, POSTFIX, false) && SpellsItems(ts[i + 1..], args, CParen)
  }

  ghost predicate SubscriptAt(ts: seq<Lex>, i: nat, t: Expr, k: Expr)
    requires i < |ts|
    decreases |ts|, 0
  {
    && i + 1 < |ts| && ts[i] == OBracket && ts[|ts| - 1] == CBracket
    && Spells(ts[..i], t, POSTFIX, false) && Spells(ts[i + 1..|ts| - 1], k, ASSIGN, true)
  }

  ghost predicate SliceAt(ts: seq<Lex>, i: nat, c: nat, t: Expr, a: Option<Expr>, b: Option<Expr>)
    requires i < c < |ts|
    decreases |ts|, 0
  {
    && c + 1 < |ts| && ts[i] == OBracket && ts[c] == Colon && ts[|ts| - 1] == CBracket
    && Spells(ts[..i], t, POSTFIX, false) && SpellsBound(ts[i + 1..c], a) && SpellsBound(ts[c + 1..|ts| - 1], b)
  }

  ghost predicate SpellsBound(ts: seq<Lex>, b: Option<Expr>)
    decreases |ts|, 3
  {
    match b
    case None => ts == []
    case Some(e) => Spells(ts, e, ASSIGN, true)
  }

  // A comma may follow an item. Without one, what comes next must not be readable as an operator.
  ghost predicate SpellsItems(ts: seq<Lex>, es: seq<Expr>, close: Lex)
    decreases |ts|, 1
  {
    if es == [] then ts == [close] else exists i | 0 < i < |ts| :: ItemAt(ts, i, es, close)
  }

  ghost predicate ItemAt(ts: seq<Lex>, i: nat, es: seq<Expr>, close: Lex)
    requires 0 < i < |ts| && es != []
    decreases |ts|, 0
  {
    && Spells(ts[..i], es[0], ASSIGN, true) && Precedence(ts[i]) == LOWEST
    && SpellsItems(SkipComma(ts[i..]), es[1..], close)
  }

  ghost predicate SpellsPairs(ts: seq<Lex>, es: seq<Expr>)
    decreases |ts|, 1
  {
    if |es| < 2 then es == [] && ts == [CBrace] else exists c, i | 0 <= c < i < |ts| :: PairAt(ts, c, i, es)
  }

  ghost predicate PairAt(ts: seq<Lex>, c: nat, i: nat, es: seq<Expr>)
    requires c < i < |ts| && |es| >= 2
    decreases |ts|, 0
  {
    && Spells(ts[..c], es[0], ASSIGN, true) && ts[c] == Colon && Spells(ts[c + 1..i], es[1], ASSIGN, true)
    && Precedence(ts[i]) == LOWEST && SpellsPairs(SkipComma(ts[i..]), es[2..])
  }

  // ----- functions -----

  // A comma may follow a name.
  predicate SpellsParams(ts: seq<Lex>, xs: seq<Name>)
    decreases |ts|
  {
    if xs == [] then ts == [] else ts != [] && ts[0] == Id(xs[0]) && SpellsParams(SkipComma(ts[1..]), xs[1..])
  }

  // After 'fn'.
  ghost predicate SpellsFunction(ts: seq<Lex>, f: Function, last: bool)
    decreases |ts|, 1
  {
    exists i | 0 <= i < |ts| :: FunctionAt(ts, i, f, last)
  }

  ghost predicate FunctionAt(ts: seq<Lex>, i: nat, f: Function, last: bool)
    requires i < |ts|
    decreases |ts|, 0
  {
    && SpellsParams(ts[..i], f.params)
    && match f.code
       case Return(e) => ts[i] == Arrow && last && Spells(ts[i + 1..], e, ASSIGN, true)
       case Block(body) => ts[i] == OBrace && SpellsStmts(ts[i + 1..], body)
       case _ => false
  }

  // ----- statements -----

  // Statements up to '}'.
  ghost predicate SpellsStmts(ts: seq<Lex>, body: seq<Stmt>)
    decreases |ts|, 1
  {
    if body == [] then ts == [CBrace] else exists i | 0 < i < |ts| :: StmtAt(ts, i, body)
  }

  ghost predicate StmtAt(ts: seq<Lex>, i: nat, body: seq<Stmt>)
    requires 0 < i < |ts| && body != []
    decreases |ts|, 0
  {
    SpellsS(ts[..i], body[0], ts[i]) && SpellsStmts(ts[i..], body[1..])
  }

  // These tokens spell the statement where `next` comes next.
  ghost predicate SpellsS(ts: seq<Lex>, s: Stmt, next: Lex)
    decreases |ts|, 4
  {
    ts != [] &&
    match s
    case Block(body) => ts[0] == OBrace && SpellsStmts(ts[1..], body)
    case Return(e) => ts[0] == ReturnTok && Spells(ts[1..], e, ASSIGN, true) && Precedence(next) == LOWEST
    case While(c, b) => ts[0] == WhileTok && exists i | 0 < i < |ts| :: WhileAt(ts, i, c, b, next)
    case If(c, a, b) => ts[0] == IfTok && SpellsCond(ts[1..], c, a, b, next)
    case Break => ts == [BreakTok]
    case Continue => ts == [ContinueTok]
    case ExprStmt(e) => ts[0] != OBrace && Spells(ts, e, ASSIGN, true) && Precedence(next) == LOWEST
  }

  ghost predicate WhileAt(ts: seq<Lex>, i: nat, c: Expr, b: Stmt, next: Lex)
    requires 0 < i < |ts|
    decreases |ts|, 0
  {
    Spells(ts[1..i], c, ASSIGN, true) && SpellsArm(ts[i..], b, next)
  }

  // '=>' and a statement, or a block.
  ghost predicate SpellsArm(ts: seq<Lex>, s: Stmt, next: Lex)
    decreases |ts|, 5
  {
    && ts != []
    && ((ts[0] == Arrow && SpellsS(ts[1..], s, next)) || (ts[0] == OBrace && s.Block? && SpellsStmts(ts[1..], s.body)))
  }

  // After 'if'.
  ghost predicate SpellsCond(ts: seq<Lex>, c: Expr, a: Stmt, b: Option<Stmt>, next: Lex)
    decreases |ts|, 1
  {
    exists i | 0 < i < |ts| :: CondAt(ts, i, c, a, b, next)
  }

  ghost predicate CondAt(ts: seq<Lex>, i: nat, c: Expr, a: Stmt, b: Option<Stmt>, next: Lex)
    requires 0 < i < |ts|
    decreases |ts|, 0
  {
    Spells(ts[..i], c, ASSIGN, true) && SpellsCases(ts[i..], a, b, next)
  }

  // An 'else' goes with the nearest 'if'.
  ghost predicate SpellsCases(ts: seq<Lex>, a: Stmt, b: Option<Stmt>, next: Lex)
    decreases |ts|, 6
  {
    match b
    case None => SpellsArm(ts, a, next) && next != ElseTok
    case Some(b1) => exists j | 0 < j < |ts| :: ElseAt(ts, j, a, b1, next)
  }

  ghost predicate ElseAt(ts: seq<Lex>, j: nat, a: Stmt, b: Stmt, next: Lex)
    requires 0 < j < |ts|
    decreases |ts|, 0
  {
    && ts[j] == ElseTok && SpellsArm(ts[..j], a, ElseTok)
    && SpellsElse(ts[j + 1..], b, next)
  }

  // 'if' again, or an arm.
  ghost predicate SpellsElse(ts: seq<Lex>, b: Stmt, next: Lex)
    decreases |ts|, 6
  {
    || (ts != [] && ts[0] == IfTok && b.If? && SpellsCond(ts[1..], b.condition, b.thenCase, b.elseCase, next))
    || SpellsArm(ts, b, next)
  }

  // The statements of a file.
  ghost predicate SpellsProgram(ts: seq<Lex>, body: seq<Stmt>)
    decreases |ts|
  {
    if body == [] then ts == []
    else exists i | 0 < i <= |ts| :: SpellsS(ts[..i], body[0], Peek(ts[i..])) && SpellsProgram(ts[i..], body[1..])
  }

  // ----- every spelling is read back -----

  // The tokens an expression can start with.
  predicate Starts(t: Lex) {
    t.Id? || t.StrLit? || t.IntLit? || t.FloatLit? || t in {OParen, OBracket, OBrace, OpTok(Sub), Bang, FnTok}
  }

  lemma {:induction false} FirstToken(ts: seq<Lex>, e: Expr, m: nat, last: bool)
    requires Spells(ts, e, m, last)
    ensures ts != [] && Starts(ts[0])
    decreases |ts|
  {
    if ts != [] && ts[0] == OParen {
      return;
    }
    assert Bare(ts, e, last);
    match e
    case Binary(op, l, r) =>
      var i :| 0 <= i < |ts| && Infix(ts, i, OpTok(op), l, r, OpPrecedence(op), last);
      FirstToken(ts[..i], l, OpPrecedence(op), false);
    case Assign(op, l, r) =>
      var i :| 0 <= i < |ts| && Infix(ts, i, AssignTok(op), l, r, ASSIGN, last);
      FirstToken(ts[..i], l, ASSIGN, false);
    case Call(f, args) =>
      var i :| 0 <= i < |ts| && CallAt(ts, i, f, args);
      FirstToken(ts[..i], f, POSTFIX, false);
    case Member(t, x) => FirstToken(ts[..|ts| - 2], t, POSTFIX, false);
    case Subscript(t, k) =>
      var i :| 0 <= i < |ts| && SubscriptAt(ts, i, t, k);
      FirstToken(ts[..i], t, POSTFIX, false);
    case Slice(t, a, b) =>
      var i, c :| 0 <= i < c < |ts| && SliceAt(ts, i, c, t, a, b);
      FirstToken(ts[..i], t, POSTFIX, false);
    case _ =>
  }

  /** After a spelling of layer m, followed by no operator that binds tighter, parse_expr is in its loop with the
      tree that was spelled. */
  lemma {:induction false} ReadBack(ts: seq<Lex>, e: Expr, m: nat, last: bool, tail: seq<Lex>, p: nat)
    requires Spells(ts, e, m, last) && (last ==> Precedence(Peek(tail)) == LOWEST) && p <= PREFIX
        && (m > p || m == PREFIX) && m <= POSTFIX && Precedence(Peek(tail)) <= m
    ensures ParseExpr(ts + tail, p) == ParseLoop(Sure(e), tail, p)
    decreases |ts|, 4
  {
    hide Bare, ParseUnary, ParseBinary, ParseLoop;
    if m <= Level(e) && Bare(ts, e, last) {
      ReadBare(ts, e, m, last, tail, p);
    } else {
      ReadParens(ts, e, tail, p);
    }
  }

  lemma {:induction false} ReadParens(ts: seq<Lex>, e: Expr, tail: seq<Lex>, p: nat)
    requires |ts| >= 2 && ts[0] == OParen && ts[|ts| - 1] == CParen && Spells(ts[1..|ts| - 1], e, ASSIGN, true)
    ensures ParseExpr(ts + tail, p) == ParseLoop(Sure(e), tail, p)
    decreases |ts|, 2
  {
    hide Spells, ParseBinary;
    var inner, after := ts[1..|ts| - 1], [CParen] + tail;
    assert Rest(ts + tail) == inner + after;
    ReadBack(inner, e, ASSIGN, true, after, LOWEST);
    assert Rest(after) == tail;
  }

  lemma {:induction false} ReadBare(ts: seq<Lex>, e: Expr, m: nat, last: bool, tail: seq<Lex>, p: nat)
    requires m <= Level(e) && Bare(ts, e, last) && (last ==> Precedence(Peek(tail)) == LOWEST) && p <= PREFIX
        && (m > p || m == PREFIX) && Precedence(Peek(tail)) <= m
    ensures ParseExpr(ts + tail, p) == ParseLoop(Sure(e), tail, p)
    decreases |ts|, 3
  {
    hide Spells, SpellsItems, SpellsPairs, SpellsFunction, ParseLoop, ParseBinary, ParseItems, ParsePairs, ParseUnary;
    match e
    case Binary(op, l, r) =>
      var i :| 0 <= i < |ts| && Infix(ts, i, OpTok(op), l, r, OpPrecedence(op), last);
      ReadInfix(ts, i, OpTok(op), l, r, OpPrecedence(op), last, e, tail, p);
    case Assign(op, l, r) =>
      var i :| 0 <= i < |ts| && Infix(ts, i, AssignTok(op), l, r, ASSIGN, last);
      ReadInfix(ts, i, AssignTok(op), l, r, ASSIGN, last, e, tail, p);
    case Call(f, args) =>
      var i :| 0 <= i < |ts| && CallAt(ts, i, f, args);
      ReadCall(ts, i, f, args, tail, p);
    case Member(t, x) => ReadMember(ts, t, x, tail, p);
    case Subscript(t, k) =>
      var i :| 0 <= i < |ts| && SubscriptAt(ts, i, t, k);
      ReadSubscript(ts, i, t, k, tail, p);
    case Slice(t, a, b) =>
      var i, c :| 0 <= i < c < |ts| && SliceAt(ts, i, c, t, a, b);
      ReadSlice(ts, i, c, t, a, b, tail, p);
    case Unary(op, v) => ReadUnary(ts, op, v, last, tail, p);
    case Array(items) => ReadArray(ts, items, tail, p);
    case MapLit(items) => ReadMap(ts, items, tail, p);
    case Fn(f) => ReadFn(ts, f, last, tail, p);
    case _ => ReadLeaf(ts, e, last, tail, p);
  }

  lemma {:induction false} ReadLeaf(ts: seq<Lex>, e: Expr, last: bool, tail: seq<Lex>, p: nat)
    requires (e.Ident? || e.Str? || e.Int? || e.Float?) && Bare(ts, e, last)
    ensures ParseExpr(ts + tail, p) == ParseLoop(Sure(e), tail, p)
  {
    hide ParseLoop;
    assert Rest(ts + tail) == tail;
  }

  lemma PrefixFirst(ts: seq<Lex>, op: UnaryOp, v: Expr, rest: seq<Lex>)
    requires Peek(ts) == UnaryTok(op) && ParseExpr(Rest(ts), PREFIX) == Ok(v, rest)
    ensures ParseUnary(ts) == Ok(Unary(op, v), rest)
  {
    hide ParseExpr;
  }

  lemma {:induction false} ReadUnary(ts: seq<Lex>, op: UnaryOp, v: Expr, last: bool, tail: seq<Lex>, p: nat)
    requires Bare(ts, Unary(op, v), last) && (last ==> Precedence(Peek(tail)) == LOWEST)
        && Precedence(Peek(tail)) <= PREFIX
    ensures ParseExpr(ts + tail, p) == ParseLoop(Sure(Unary(op, v)), tail, p)
    decreases |ts|, 0
  {
    hide Spells, ParseBinary, ParsePrefix, ParseUnary, Precedence;
    assert Rest(ts + tail) == ts[1..] + tail;
    ReadBack(ts[1..], v, PREFIX, last, tail, PREFIX);
    PrefixFirst(ts + tail, op, v, tail);
  }

  lemma {:induction false} ReadArray(ts: seq<Lex>, items: seq<Expr>, tail: seq<Lex>, p: nat)
    requires Bare(ts, Array(items), false)
    ensures ParseExpr(ts + tail, p) == ParseLoop(Sure(Array(items)), tail, p)
    decreases |ts|, 0
  {
    hide SpellsItems, ParseItems, ParseLoop;
    assert Rest(ts + tail) == ts[1..] + tail;
    ReadItems(ts[1..], items, CBracket, tail);
  }

  lemma {:induction false} ReadMap(ts: seq<Lex>, items: seq<Expr>, tail: seq<Lex>, p: nat)
    requires Bare(ts, MapLit(items), false)
    ensures ParseExpr(ts + tail, p) == ParseLoop(Sure(MapLit(items)), tail, p)
    decreases |ts|, 0
  {
    hide SpellsPairs, ParsePairs, ParseLoop;
    assert Rest(ts + tail) == ts[1..] + tail;
    ReadPairs(ts[1..], items, tail);
  }

  function Applied(op: Lex, l: Expr, r: Expr): Expr
    requires op.OpTok? || op.AssignTok?
  {
    if op.OpTok? then Binary(op.op, l, r) else Assign(op.assigns, l, r)
  }

  lemma {:induction false} ReadInfix(ts: seq<Lex>, i: nat, op: Lex, l: Expr, r: Expr, q: nat, last: bool, e: Expr,
                                      tail: seq<Lex>, p: nat)
    requires i < |ts| && Infix(ts, i, op, l, r, q, last) && (last ==> Precedence(Peek(tail)) == LOWEST)
    requires (op.OpTok? || op.AssignTok?) && q == Precedence(op) && e == Applied(op, l, r)
    requires p < q && Precedence(Peek(tail)) <= q
    ensures ParseExpr(ts + tail, p) == ParseLoop(Sure(e), tail, p)
    decreases |ts|, 0
  {
    hide Spells;
    var right := ts[i + 1..] + tail;
    assert ts + tail == ts[..i] + ([op] + right);
    ReadBack(ts[..i], l, q, false, [op] + right, p);
    assert Rest([op] + right) == right;
    ReadBack(ts[i + 1..], r, q + 1, last, tail, q);
    assert ParseExpr(right, q) == Ok(r, tail);
  }

  lemma {:induction false} ReadCall(ts: seq<Lex>, i: nat, f: Expr, args: seq<Expr>, tail: seq<Lex>, p: nat)
    requires i < |ts| && CallAt(ts, i, f, args) && p < POSTFIX
    ensures ParseExpr(ts + tail, p) == ParseLoop(Sure(Call(f, args)), tail, p)
    decreases |ts|, 0
  {
    hide Spells, SpellsItems, ParseItems;
    var after := ts[i + 1..] + tail;
    assert ts + tail == ts[..i] + ([OParen] + after);
    ReadBack(ts[..i], f, POSTFIX, false, [OParen] + after, p);
    assert Rest([OParen] + after) == after;
    ReadItems(ts[i + 1..], args, CParen, tail);
  }

  lemma {:induction false} ReadMember(ts: seq<Lex>, t: Expr, x: Name, tail: seq<Lex>, p: nat)
    requires Bare(ts, Member(t, x), false) && p < POSTFIX
    ensures ParseExpr(ts + tail, p) == ParseLoop(Sure(Member(t, x)), tail, p)
    decreases |ts|, 0
  {
    hide Spells, ParseBinary, ParseLoop, ParseExpr;
    var front, after := ts[..|ts| - 2], [Dot, Id(x)] + tail;
    assert ts + tail == front + after;
    ReadBack(front, t, POSTFIX, false, after, p);
    MemberNext(t, x, tail, after);
    LoopStep(t, after, Member(t, x), tail, p);
  }

  lemma MemberNext(t: Expr, x: Name, tail: seq<Lex>, after: seq<Lex>)
    requires after == [Dot, Id(x)] + tail
    ensures Peek(after) == Dot && ParseBinary(Sure(t), after) == Ok(Member(t, x), tail)
  {
    assert Rest(after) == [Id(x)] + tail && Rest([Id(x)] + tail) == tail;
  }

  lemma {:induction false} ReadSubscript(ts: seq<Lex>, i: nat, t: Expr, k: Expr, tail: seq<Lex>, p: nat)
    requires i < |ts| && SubscriptAt(ts, i, t, k) && p < POSTFIX
    ensures ParseExpr(ts + tail, p) == ParseLoop(Sure(Subscript(t, k)), tail, p)
    decreases |ts|, 0
  {
    hide Spells;
    hide ParseSubscript, ParseExpr;
    var inner, after := ts[i + 1..|ts| - 1], [CBracket] + tail;
    assert ts + tail == ts[..i] + ([OBracket] + (inner + after));
    FirstToken(inner, k, ASSIGN, true);
    ReadWhole(inner, k, after);
    SubscriptEnd(t, inner + after, k, tail);
    ReadBack(ts[..i], t, POSTFIX, false, [OBracket] + (inner + after), p);
    assert Rest([OBracket] + (inner + after)) == inner + after;
  }

  lemma SubscriptEnd(t: Expr, ts: seq<Lex>, k: Expr, tail: seq<Lex>)
    requires Peek(ts) != Colon && ParseExpr(ts, LOWEST) == Ok(k, [CBracket] + tail)
    ensures ParseSubscript(Sure(t), ts) == Ok(Subscript(t, k), tail)
  {
    hide ParseExpr;
  }

  lemma {:induction false} ReadSlice(ts: seq<Lex>, i: nat, c: nat, t: Expr, a: Option<Expr>, b: Option<Expr>,
      tail: seq<Lex>, p: nat)
    requires i < c < |ts| && SliceAt(ts, i, c, t, a, b) && p < POSTFIX
    ensures ParseExpr(ts + tail, p) == ParseLoop(Sure(Slice(t, a, b)), tail, p)
    decreases |ts|, 2
  {
    hide Spells, SpellsBound, ParseSubscript, ParseLoop, ParseExpr;
    var start, end := ts[i + 1..c], ts[c + 1..|ts| - 1];
    var after := [CBracket] + tail;
    var inner := start + ([Colon] + (end + after));
    assert ts + tail == ts[..i] + ([OBracket] + inner);
    ReadBack(ts[..i], t, POSTFIX, false, [OBracket] + inner, p);
    ReadBounds(start, end, t, a, b, tail, |ts|);
    assert Rest([OBracket] + inner) == inner;
    LoopStep(t, [OBracket] + inner, Slice(t, a, b), tail, p);
  }

  lemma LoopStep(l: Expr, ts: seq<Lex>, e: Expr, rest: seq<Lex>, p: nat)
    requires Precedence(Peek(ts)) > p && ParseBinary(Sure(l), ts) == Ok(e, rest)
    ensures ParseLoop(Sure(l), ts, p) == ParseLoop(Sure(e), rest, p)
  {
    hide ParseBinary;
  }

  lemma {:induction false} ReadBounds(start: seq<Lex>, end: seq<Lex>, t: Expr, a: Option<Expr>, b: Option<Expr>,
      tail: seq<Lex>, n: nat)
    requires SpellsBound(start, a) && SpellsBound(end, b) && |start| < n && |end| < n
    ensures ParseSubscript(Sure(t), start + ([Colon] + (end + ([CBracket] + tail)))) == Ok(Slice(t, a, b), tail)
    decreases n, 1
  {
    hide Spells, ParseExpr, ParseSliceEnd;
    var after := end + ([CBracket] + tail);
    assert Rest([Colon] + after) == after;
    ReadEnd(end, t, a, b, tail, n);
    if a.Some? {
      FirstToken(start, a.value, ASSIGN, true);
      ReadWhole(start, a.value, [Colon] + after);
    } else {
      assert start + ([Colon] + after) == [Colon] + after;
    }
  }

  lemma {:induction false} ReadEnd(end: seq<Lex>, t: Expr, a: Option<Expr>, b: Option<Expr>, tail: seq<Lex>, n: nat)
    requires SpellsBound(end, b) && |end| < n
    ensures ParseSliceEnd(Sure((t, a)), end + ([CBracket] + tail)) == Ok(Slice(t, a, b), tail)
    decreases n, 0
  {
    hide Spells, ParseExpr;
    var after := [CBracket] + tail;
    assert Rest(after) == tail;
    if b.Some? {
      FirstToken(end, b.value, ASSIGN, true);
      ReadWhole(end, b.value, after);
    } else {
      assert end + after == after;
    }
  }

  // A comma is skipped the same way when more follows.
  lemma SkipMore(ts: seq<Lex>, tail: seq<Lex>)
    requires ts != []
    ensures SkipComma(ts + tail) == SkipComma(ts) + tail
  {
  }

  lemma {:induction false} ItemsStart(ts: seq<Lex>, es: seq<Expr>, close: Lex)
    requires SpellsItems(ts, es, close)
    ensures ts != [] && (ts[0] == close || Starts(ts[0])) && (es != [] ==> Starts(ts[0]))
  {
    hide Spells;
    if es != [] {
      var i :| 0 < i < |ts| && ItemAt(ts, i, es, close);
      FirstToken(ts[..i], es[0], ASSIGN, true);
    }
  }

  lemma ItemsEnd(ts: seq<Lex>, close: Lex)
    requires close != Eof && Peek(ts) == close
    ensures ParseItems(ts, close) == Ok([], Rest(ts))
  {
  }

  lemma ItemsNext(ts: seq<Lex>, close: Lex, e: Expr, r: seq<Lex>, es: seq<Expr>, rest: seq<Lex>)
    requires close != Eof && Peek(ts) != close && ParseExpr(ts, LOWEST) == Ok(e, r)
    requires Peek(SkipComma(r)) != Eof && ParseItems(SkipComma(r), close) == Ok(es, rest)
    ensures ParseItems(ts, close) == Ok([e] + es, rest)
  {
    hide ParseExpr, SkipComma;
  }

  lemma {:induction false} ReadItems(ts: seq<Lex>, es: seq<Expr>, close: Lex, tail: seq<Lex>)
    requires SpellsItems(ts, es, close) && close in {CParen, CBracket}
    ensures ParseItems(ts + tail, close) == Ok(es, tail)
    decreases |ts|, 2
  {
    hide Spells, ParseExpr, ParseItems, SkipComma;
    ItemsStart(ts, es, close);
    if es == [] {
      assert Rest(ts + tail) == tail;
      ItemsEnd(ts + tail, close);
    } else {
      var i :| 0 < i < |ts| && ItemAt(ts, i, es, close);
      var item, after := ts[..i], ts[i..];
      assert ts + tail == item + (after + tail);
      ReadBack(item, es[0], ASSIGN, true, after + tail, LOWEST);
      SkipMore(after, tail);
      ReadItems(SkipComma(after), es[1..], close, tail);
      ItemsStart(SkipComma(after), es[1..], close);
      ItemsNext(ts + tail, close, es[0], after + tail, es[1..], tail);
      assert es == [es[0]] + es[1..];
    }
  }

  lemma {:induction false} PairsStart(ts: seq<Lex>, es: seq<Expr>)
    requires SpellsPairs(ts, es)
    ensures ts != [] && (ts[0] == CBrace || Starts(ts[0])) && (es != [] ==> Starts(ts[0]))
  {
    hide Spells;
    if |es| >= 2 {
      var c, i :| 0 <= c < i < |ts| && PairAt(ts, c, i, es);
      FirstToken(ts[..c], es[0], ASSIGN, true);
    }
  }

  lemma PairsEnd(ts: seq<Lex>)
    requires Peek(ts) == CBrace
    ensures ParsePairs(ts) == Ok([], Rest(ts))
  {
  }

  lemma PairsNext(ts: seq<Lex>, k: Expr, v: Expr, r: seq<Lex>, es: seq<Expr>, rest: seq<Lex>)
    requires Peek(ts) != CBrace && ParsePair(ts) == Ok([k, v], r)
    requires Peek(SkipComma(r)) != Eof && ParsePairs(SkipComma(r)) == Ok(es, rest)
    ensures ParsePairs(ts) == Ok([k, v] + es, rest)
  {
    hide ParsePair, SkipComma;
  }

  lemma {:induction false} ReadPair(key: seq<Lex>, k: Expr, value: seq<Lex>, v: Expr, more: seq<Lex>, n: nat)
    requires Spells(key, k, ASSIGN, true) && Spells(value, v, ASSIGN, true) && Precedence(Peek(more)) == LOWEST
    requires |key| < n && |value| < n
    ensures ParsePair(key + ([Colon] + (value + more))) == Ok([k, v], more)
    decreases n, 1
  {
    hide Spells, ParseExpr;
    var after := [Colon] + (value + more);
    assert Rest(after) == value + more;
    ReadWhole(key, k, after);
    ReadWhole(value, v, more);
  }

  lemma {:induction false} ReadPairs(ts: seq<Lex>, es: seq<Expr>, tail: seq<Lex>)
    requires SpellsPairs(ts, es)
    ensures ParsePairs(ts + tail) == Ok(es, tail)
    decreases |ts|, 2
  {
    hide Spells, ParsePair, ParsePairs, SkipComma;
    PairsStart(ts, es);
    if es == [] {
      assert Rest(ts + tail) == tail;
      PairsEnd(ts + tail);
    } else {
      var c, i :| 0 <= c < i < |ts| && PairAt(ts, c, i, es);
      var key, value, after := ts[..c], ts[c + 1..i], ts[i..];
      assert ts + tail == key + ([Colon] + (value + (after + tail)));
      ReadPair(key, es[0], value, es[1], after + tail, |ts|);
      SkipMore(after, tail);
      ReadPairs(SkipComma(after), es[2..], tail);
      PairsStart(SkipComma(after), es[2..]);
      PairsNext(ts + tail, es[0], es[1], after + tail, es[2..], tail);
      assert es == [es[0], es[1]] + es[2..];
    }
  }

  // ----- functions are read back -----

  lemma {:induction false} ReadFn(ts: seq<Lex>, f: Function, last: bool, tail: seq<Lex>, p: nat)
    requires Bare(ts, Fn(f), last) && (last ==> Precedence(Peek(tail)) == LOWEST)
    ensures ParseExpr(ts + tail, p) == ParseLoop(Sure(Fn(f)), tail, p)
    decreases |ts|, 0
  {
    hide SpellsFunction, ParseFunction, ParseLoop;
    assert Rest(ts + tail) == ts[1..] + tail;
    ReadFunction(ts[1..], f, last, tail);
  }

  lemma ParamsEnd(ts: seq<Lex>)
    requires Peek(ts) in {Arrow, OBrace}
    ensures ParseParams(ts) == Ok([], ts)
  {
  }

  lemma {:induction false} ParamsNext(ts: seq<Lex>, x: Name, r: seq<Lex>, xs: seq<Name>, rest: seq<Lex>)
    requires Peek(ts) == Id(x) && r == SkipComma(Rest(ts)) && Peek(r) != Eof && ParseParams(r) == Ok(xs, rest)
    ensures ParseParams(ts) == Ok([x] + xs, rest)
  {
    hide SkipComma;
  }

  lemma {:induction false} ParamsStart(ts: seq<Lex>, xs: seq<Name>, tail: seq<Lex>)
    requires SpellsParams(ts, xs) && Peek(tail) in {Arrow, OBrace}
    ensures Peek(ts + tail) != Eof
  {
  }

  // The comma that may follow a name is seen whatever comes after the names.
  lemma CommaMore(ts: seq<Lex>, tail: seq<Lex>)
    requires Peek(tail) in {Arrow, OBrace}
    ensures SkipComma(ts + tail) == SkipComma(ts) + tail
  {
    if ts == [] {
      assert ts + tail == tail && SkipComma(ts) == [] && [] + tail == tail;
    } else {
      SkipMore(ts, tail);
    }
  }

  lemma {:induction false} ReadParams(ts: seq<Lex>, xs: seq<Name>, tail: seq<Lex>)
    requires SpellsParams(ts, xs) && Peek(tail) in {Arrow, OBrace}
    ensures ParseParams(ts + tail) == Ok(xs, tail)
    decreases |ts|
  {
    hide ParseParams, SkipComma;
    if xs == [] {
      assert ts + tail == tail;
      ParamsEnd(tail);
    } else {
      var after := SkipComma(ts[1..]);
      assert Rest(ts + tail) == ts[1..] + tail && Peek(ts + tail) == ts[0];
      CommaMore(ts[1..], tail);
      ReadParams(after, xs[1..], tail);
      ParamsStart(after, xs[1..], tail);
      ParamsNext(ts + tail, xs[0], after + tail, xs[1..], tail);
      assert [xs[0]] + xs[1..] == xs;
    }
  }

  lemma {:induction false} ReadFunction(ts: seq<Lex>, f: Function, last: bool, tail: seq<Lex>)
    requires SpellsFunction(ts, f, last) && (last ==> Precedence(Peek(tail)) == LOWEST)
    ensures ParseFunction(ts + tail) == Ok(Fn(f), tail)
    decreases |ts|, 2
  {
    hide Spells, SpellsStmts, ParseStmts, ParseParams, SpellsParams;
    var i :| 0 <= i < |ts| && FunctionAt(ts, i, f, last);
    var after := ts[i + 1..] + tail;
    assert ts + tail == ts[..i] + ([ts[i]] + after);
    ReadParams(ts[..i], f.params, [ts[i]] + after);
    assert Rest([ts[i]] + after) == after;
    if f.code.Return? {
      ReadBack(ts[i + 1..], f.code.result, ASSIGN, true, tail, LOWEST);
    } else {
      ReadStmts(ts[i + 1..], f.code.body, tail);
    }
  }

  // ----- statements are read back -----

  lemma {:induction false} StmtStart(ts: seq<Lex>, s: Stmt, next: Lex)
    requires SpellsS(ts, s, next)
    ensures ts != [] && ts[0] !in {Eof, CBrace, ElseTok}
  {
    hide Spells;
    if s.ExprStmt? {
      FirstToken(ts, s.expr, ASSIGN, true);
    }
  }

  lemma StmtsEnd(ts: seq<Lex>)
    requires Peek(ts) == CBrace
    ensures ParseStmts(ts) == Ok([], Rest(ts))
  {
  }

  lemma StmtsNext(ts: seq<Lex>, s: Stmt, r: seq<Lex>, body: seq<Stmt>, rest: seq<Lex>)
    requires Peek(ts) != CBrace && ParseStmt(ts) == Ok(s, r) && Peek(r) != Eof && ParseStmts(r) == Ok(body, rest)
    ensures ParseStmts(ts) == Ok([s] + body, rest)
  {
    hide ParseStmt;
  }

  lemma {:induction false} StmtsStart(ts: seq<Lex>, body: seq<Stmt>)
    requires SpellsStmts(ts, body)
    ensures ts != [] && ts[0] != Eof && (body != [] ==> ts[0] != CBrace)
  {
    hide SpellsS;
    if body != [] {
      var i :| 0 < i < |ts| && StmtAt(ts, i, body);
      StmtStart(ts[..i], body[0], ts[i]);
    }
  }

  lemma {:induction false} ReadStmts(ts: seq<Lex>, body: seq<Stmt>, tail: seq<Lex>)
    requires SpellsStmts(ts, body)
    ensures ParseStmts(ts + tail) == Ok(body, tail)
    decreases |ts|, 5
  {
    hide SpellsS, ParseStmt, ParseStmts;
    StmtsStart(ts, body);
    if body == [] {
      assert Rest(ts + tail) == tail;
      StmtsEnd(ts + tail);
    } else {
      var i :| 0 < i < |ts| && StmtAt(ts, i, body);
      var after := ts[i..];
      assert ts + tail == ts[..i] + (after + tail);
      ReadStmt(ts[..i], body[0], after + tail);
      StmtsStart(after, body[1..]);
      ReadStmts(after, body[1..], tail);
      StmtsNext(ts + tail, body[0], after + tail, body[1..], tail);
      assert body == [body[0]] + body[1..];
    }
  }

  lemma BlockFirst(ts: seq<Lex>, body: seq<Stmt>, rest: seq<Lex>)
    requires Peek(ts) == OBrace && ParseStmts(Rest(ts)) == Ok(body, rest)
    ensures ParseStmt(ts) == Ok(Block(body), rest)
  {
    hide ParseStmts;
  }

  lemma ReturnFirst(ts: seq<Lex>, e: Expr, rest: seq<Lex>)
    requires Peek(ts) == ReturnTok && ParseExpr(Rest(ts), LOWEST) == Ok(e, rest)
    ensures ParseStmt(ts) == Ok(Return(e), rest)
  {
    hide ParseExpr;
  }

  lemma OtherFirst(ts: seq<Lex>)
    ensures Peek(ts) == IfTok ==> ParseStmt(ts) == ParseConditional(Rest(ts))
    ensures Peek(ts) == BreakTok ==> ParseStmt(ts) == Ok(Break, Rest(ts))
    ensures Peek(ts) == ContinueTok ==> ParseStmt(ts) == Ok(Continue, Rest(ts))
  {
    hide ParseConditional;
  }

  /** What spells a statement before a token is read back as that statement. */
  lemma {:induction false} ReadStmt(ts: seq<Lex>, s: Stmt, tail: seq<Lex>)
    requires SpellsS(ts, s, Peek(tail))
    ensures ParseStmt(ts + tail) == Ok(s, tail)
    decreases |ts|, 7
  {
    hide Precedence, WhileAt, Spells, SpellsStmts, SpellsArm, SpellsCond, ParseExpr, ParseStmts, ParseArm,
        ParseConditional, ParseStmt;
    var rest := ts[1..] + tail;
    assert Rest(ts + tail) == rest && Peek(ts + tail) == ts[0];
    OtherFirst(ts + tail);
    match s
    case Block(body) =>
      ReadStmts(ts[1..], body, tail);
      BlockFirst(ts + tail, body, tail);
    case Return(e) =>
      ReadWhole(ts[1..], e, tail);
      ReturnFirst(ts + tail, e, tail);
    case While(c, b) => ReadWhile(ts, c, b, tail);
    case If(c, a, b) => ReadConditional(ts[1..], c, a, b, tail);
    case Break =>
    case Continue =>
    case ExprStmt(e) => ReadExprStmt(ts, e, tail);
  }

  lemma {:induction false} ReadExprStmt(ts: seq<Lex>, e: Expr, tail: seq<Lex>)
    requires SpellsS(ts, ExprStmt(e), Peek(tail))
    ensures ParseStmt(ts + tail) == Ok(ExprStmt(e), tail)
    decreases |ts|, 6
  {
    hide Spells, ParseExpr, ParseStmt;
    FirstToken(ts, e, ASSIGN, true);
    ReadWhole(ts, e, tail);
    ExprFirst(ts + tail, e, tail);
  }

  lemma ExprFirst(ts: seq<Lex>, e: Expr, rest: seq<Lex>)
    requires ParseExpr(ts, LOWEST) == Ok(e, rest) && Starts(Peek(ts)) && Peek(ts) != OBrace
    ensures ParseStmt(ts) == Ok(ExprStmt(e), rest)
  {
    hide ParseExpr;
  }

  lemma {:induction false} ReadWhile(ts: seq<Lex>, c: Expr, b: Stmt, tail: seq<Lex>)
    requires SpellsS(ts, While(c, b), Peek(tail))
    ensures ParseStmt(ts + tail) == Ok(While(c, b), tail)
    decreases |ts|, 5
  {
    hide Spells, SpellsArm, ParseExpr, ParseArm;
    var i :| 0 < i < |ts| && WhileAt(ts, i, c, b, Peek(tail));
    assert Rest(ts + tail) == ts[1..i] + (ts[i..] + tail);
    ArmStart(ts[i..], b, Peek(tail));
    ReadWhole(ts[1..i], c, ts[i..] + tail);
    ReadArm(ts[i..], b, tail);
  }

  // A whole expression.
  lemma {:induction false} ReadWhole(ts: seq<Lex>, e: Expr, tail: seq<Lex>)
    requires Spells(ts, e, ASSIGN, true) && Precedence(Peek(tail)) == LOWEST
    ensures ParseExpr(ts + tail, LOWEST) == Ok(e, tail)
    decreases |ts|, 5
  {
    hide Spells, ParseExpr;
    ReadBack(ts, e, ASSIGN, true, tail, LOWEST);
  }

  lemma ArmStart(ts: seq<Lex>, s: Stmt, next: Lex)
    requires SpellsArm(ts, s, next)
    ensures ts != [] && ts[0] in {Arrow, OBrace}
  {
  }

  lemma {:induction false} ReadArm(ts: seq<Lex>, s: Stmt, tail: seq<Lex>)
    requires SpellsArm(ts, s, Peek(tail))
    ensures ParseArm(ts + tail) == Ok(s, tail)
    decreases |ts|, 8
  {
    hide SpellsS, SpellsStmts, ParseStmt, ParseStmts;
    assert Rest(ts + tail) == ts[1..] + tail;
    if ts[0] == Arrow {
      ReadStmt(ts[1..], s, tail);
    } else {
      ReadStmts(ts[1..], s.body, tail);
    }
  }

  lemma {:induction false} ReadConditional(ts: seq<Lex>, c: Expr, a: Stmt, b: Option<Stmt>, tail: seq<Lex>)
    requires SpellsCond(ts, c, a, b, Peek(tail))
    ensures ParseConditional(ts + tail) == Ok(If(c, a, b), tail)
    decreases |ts|, 5
  {
    hide Spells, SpellsCases, ParseExpr, ParseConditional;
    var i :| 0 < i < |ts| && CondAt(ts, i, c, a, b, Peek(tail));
    var cases := ts[i..];
    assert ts + tail == ts[..i] + (cases + tail);
    CasesStart(cases, a, b, Peek(tail));
    ReadWhole(ts[..i], c, cases + tail);
    ReadCases(ts + tail, c, cases, a, b, tail);
  }

  lemma {:induction false} ReadCases(ts: seq<Lex>, c: Expr, cases: seq<Lex>, a: Stmt, b: Option<Stmt>, tail: seq<Lex>)
    requires SpellsCases(cases, a, b, Peek(tail)) && ParseExpr(ts, LOWEST) == Ok(c, cases + tail)
    ensures ParseConditional(ts) == Ok(If(c, a, b), tail)
    decreases |cases|, 9
  {
    hide SpellsArm, ParseExpr, ParseArm, ParseConditional, SpellsElse;
    if b.None? {
      ReadArm(cases, a, tail);
      NoElse(ts, c, cases + tail, a, tail);
    } else {
      var j :| 0 < j < |cases| && ElseAt(cases, j, a, b.value, Peek(tail));
      var after := cases[j + 1..];
      assert cases + tail == cases[..j] + ([ElseTok] + (after + tail));
      ReadArm(cases[..j], a, [ElseTok] + (after + tail));
      ReadElse(ts, c, cases + tail, a, [ElseTok] + (after + tail), after, b.value, tail);
    }
  }

  lemma CasesStart(ts: seq<Lex>, a: Stmt, b: Option<Stmt>, next: Lex)
    requires SpellsCases(ts, a, b, next)
    ensures ts != [] && Precedence(ts[0]) == LOWEST
  {
    hide SpellsS, SpellsStmts;
    if b.Some? {
      var j :| 0 < j < |ts| && ElseAt(ts, j, a, b.value, next);
      ArmStart(ts[..j], a, ElseTok);
    }
  }

  lemma NoElse(ts: seq<Lex>, c: Expr, r: seq<Lex>, a: Stmt, r1: seq<Lex>)
    requires ParseExpr(ts, LOWEST) == Ok(c, r) && ParseArm(r) == Ok(a, r1) && Peek(r1) != ElseTok
    ensures ParseConditional(ts) == Ok(If(c, a, None), r1)
  {
    hide ParseExpr, ParseArm;
  }

  lemma ElseFirst(ts: seq<Lex>, c: Expr, r: seq<Lex>, a: Stmt, r1: seq<Lex>, b: Stmt, rest: seq<Lex>)
    requires ParseExpr(ts, LOWEST) == Ok(c, r) && ParseArm(r) == Ok(a, r1) && Peek(r1) == ElseTok
        && ParseCase(Rest(r1)) == Ok(b, rest)
    ensures ParseConditional(ts) == Ok(If(c, a, Some(b)), rest)
  {
    hide ParseExpr, ParseArm, ParseCase;
    assert ParseElse(r1) == Ok(Some(b), rest);
  }

  lemma {:induction false} ReadElse(ts: seq<Lex>, c: Expr, r: seq<Lex>, a: Stmt, r1: seq<Lex>, more: seq<Lex>, b: Stmt,
      tail: seq<Lex>)
    requires ParseExpr(ts, LOWEST) == Ok(c, r) && ParseArm(r) == Ok(a, r1) && r1 == [ElseTok] + (more + tail)
    requires SpellsElse(more, b, Peek(tail))
    ensures ParseConditional(ts) == Ok(If(c, a, Some(b)), tail)
    decreases |more|, 10
  {
    hide ParseExpr, ParseArm, ParseConditional, SpellsArm, SpellsCond;
    var rest := more + tail;
    assert Rest(r1) == rest;
    if more != [] && more[0] == IfTok && b.If?
        && SpellsCond(more[1..], b.condition, b.thenCase, b.elseCase, Peek(tail)) {
      assert Rest(rest) == more[1..] + tail;
      ReadConditional(more[1..], b.condition, b.thenCase, b.elseCase, tail);
      assert b == If(b.condition, b.thenCase, b.elseCase);
    } else {
      ArmStart(more, b, Peek(tail));
      ReadArm(more, b, tail);
    }
    ElseFirst(ts, c, r, a, r1, b, tail);
  }

  lemma {:induction false} ReadProgram(ts: seq<Lex>, body: seq<Stmt>, tail: seq<Lex>)
    requires SpellsProgram(ts, body) && Peek(tail) == Eof
    ensures ParseProgram(ts + tail) == Ok(body, tail)
    decreases |ts|
  {
    hide SpellsS, ParseStmt;
    if body == [] {
      assert ts + tail == tail;
    } else {
      var i :| 0 < i <= |ts| && SpellsS(ts[..i], body[0], Peek(ts[i..])) && SpellsProgram(ts[i..], body[1..]);
      assert ts + tail == ts[..i] + (ts[i..] + tail);
      assert Peek(ts[i..]) == Peek(ts[i..] + tail) by {
        if ts[i..] == [] {
          assert ts[i..] + tail == tail;
        }
      }
      StmtStart(ts[..i], body[0], Peek(ts[i..]));
      ReadStmt(ts[..i], body[0], ts[i..] + tail);
      ReadProgram(ts[i..], body[1..], tail);
      assert [body[0]] + body[1..] == body;
    }
  }
}

/**
 Printing a program with only the parentheses that the grammar calls for, and reading it back.
 */
module Printing {
  import opened Syntax
  import opened Grammar
  import opened Pratt
  import opened Recognition

  predicate ArrowFn(e: Expr) {
    e.Fn? && e.fn.code.Return?
  }

  // Where an operand of layer m may stand. `last`: no token follows that continues an expression.
  function Print(e: Expr, m: nat, last: bool): seq<Lex>
    decreases e, 1
  {
    if m <= Level(e) && (ArrowFn(e) ==> last) then PrintBare(e, last) else [OParen] + PrintBare(e, true) + [CParen]
  }

  function PrintBare(e: Expr, last: bool): seq<Lex>
    decreases e, 0
  {
    match e
    case Ident(x) => [Id(x)]
    case Str(s) => [StrLit(Some(s))]
    case Int(n) => [IntLit(Some(n))]
    case Float(d) => [FloatLit(Some(d))]
    case Array(items) => [OBracket] + PrintItems(items, CBracket)
    case MapLit(items) => [OBrace] + PrintPairs(items)
    case Unary(op, v) => [UnaryTok(op)] + Print(v, PREFIX, last)
    case Binary(op, l, r) => Print(l, OpPrecedence(op), false) + ([OpTok(op)] + Print(r, OpPrecedence(op) + 1, last))
    case Assign(op, l, r) => Print(l, ASSIGN, false) + ([AssignTok(op)] + Print(r, ASSIGN + 1, last))
    case Call(f, args) => Print(f, POSTFIX, false) + ([OParen] + PrintItems(args, CParen))
    case Member(t, x) => Print(t, POSTFIX, false) + [Dot, Id(x)]
    case Subscript(t, k) => Print(t, POSTFIX, false) + ([OBracket] + (Print(k, ASSIGN, true) + [CBracket]))
    case Slice(t, a, b) =>
      Print(t, POSTFIX, false) + ([OBracket] + (PrintBound(a) + ([Colon] + (PrintBound(b) + [CBracket]))))
    case Fn(f) =>
      [FnTok] + (PrintParams(f.params) +
        match f.code
        case Return(x) => [Arrow] + Print(x, ASSIGN, true)
        case Block(body) => [OBrace] + PrintStmts(body)
        case _ => [])
  }

  function PrintBound(b: Option<Expr>): seq<Lex> {
    if b.Some? then Print(b.value, ASSIGN, true) else []
  }

  function PrintItems(es: seq<Expr>, close: Lex): seq<Lex> {
    if es == [] then [close] else Print(es[0], ASSIGN, true) + ([Comma] + PrintItems(es[1..], close))
  }

  function PrintPairs(es: seq<Expr>): seq<Lex> {
    if |es| < 2 then [CBrace]
    else Print(es[0], ASSIGN, true) + [Colon] + Print(es[1], ASSIGN, true) + ([Comma] + PrintPairs(es[2..]))
  }

  function PrintParams(xs: seq<Name>): seq<Lex> {
    if xs == [] then [] else [Id(xs[0])] + ([Comma] + PrintParams(xs[1..]))
  }

  // Statements up to '}'.
  function PrintStmts(body: seq<Stmt>): seq<Lex>
    decreases body, 0
  {
    if body == [] then [CBrace] else PrintS(body[0]) + PrintStmts(body[1..])
  }

  function PrintS(s: Stmt): seq<Lex>
    decreases s, 0
  {
    match s
    case Block(body) => [OBrace] + PrintStmts(body)
    case Return(e) => [ReturnTok] + Print(e, ASSIGN, true)
    case While(c, b) => [WhileTok] + Print(c, ASSIGN, true) + PrintArm(b)
    case If(c, a, b) =>
      [IfTok] + (Print(c, ASSIGN, true) + if b.Some? then PrintArm(a) + ([ElseTok] + PrintElse(b.value))
          else PrintArm(a))
    case Break => [BreakTok]
    case Continue => [ContinueTok]
    case ExprStmt(e) => PrintExprStmt(e)
  }

  // A map at the start of a statement would be a block.
  function PrintExprStmt(e: Expr): seq<Lex> {
    var ts := Print(e, ASSIGN, true);
    if Peek(ts) == OBrace then [OParen] + ts + [CParen] else ts
  }

  function PrintElse(b: Stmt): seq<Lex>
    decreases b, 2
  {
    if b.If? then PrintS(b) else PrintArm(b)
  }

  function PrintArm(s: Stmt): seq<Lex>
    decreases s, 1
  {
    if s.Block? then PrintS(s) else [Arrow] + PrintS(s)
  }

  function PrintProgram(body: seq<Stmt>): seq<Lex> {
    if body == [] then [] else PrintS(body[0]) + PrintProgram(body[1..])
  }

  // ----- what can be printed -----

  // Maps have a value for each key, and statements can stand before what follows them.
  predicate Printable(e: Expr)
    decreases e, 0
  {
    match e
    case Fn(f) =>
      (match f.code
       case Return(x) => Printable(x)
       case Block(body) => PrintableStmts(body)
       case _ => false)
    case Array(items) => PrintableAll(items)
    case MapLit(items) => |items| % 2 == 0 && PrintableAll(items)
    case Subscript(t, k) => Printable(t) && Printable(k)
    case Slice(t, a, b) => Printable(t) && (a.Some? ==> Printable(a.value)) && (b.Some? ==> Printable(b.value))
    case Member(t, _) => Printable(t)
    case Assign(_, t, v) => Printable(t) && Printable(v)
    case Unary(_, v) => Printable(v)
    case Binary(_, l, r) => Printable(l) && Printable(r)
    case Call(f, args) => Printable(f) && PrintableAll(args)
    case _ => true
  }

  predicate PrintableAll(es: seq<Expr>)
    decreases es, 0
  {
    es == [] || (Printable(es[0]) && PrintableAll(es[1..]))
  }

  predicate PrintableStmts(body: seq<Stmt>)
    decreases body, 0
  {
    body == [] || (PrintableS(body[0], Peek(PrintStmts(body[1..]))) && PrintableStmts(body[1..]))
  }

  // The statement may stand before this token.
  predicate PrintableS(s: Stmt, next: Lex)
    decreases s, 0
  {
    match s
    case Block(body) => PrintableStmts(body)
    case Return(e) => Printable(e) && Precedence(next) == LOWEST
    case While(c, b) => Printable(c) && PrintableS(b, next)
    case If(c, a, b) =>
      && Printable(c)
      && (if b.Some? then PrintableS(a, ElseTok) && PrintableS(b.value, next)
          else PrintableS(a, next) && next != ElseTok)
    case ExprStmt(e) => Printable(e) && Precedence(next) == LOWEST
    case _ => true
  }

  predicate PrintableProgram(body: seq<Stmt>) {
    body == [] || (PrintableS(body[0], Peek(PrintProgram(body[1..]))) && PrintableProgram(body[1..]))
  }

  // ----- what is printed spells the program -----

  lemma {:induction false} PrintSpells(e: Expr, m: nat, last: bool)
    requires Printable(e) && m <= ATOM
    ensures Spells(Print(e, m, last), e, m, last)
    decreases e, 1
  {
    hide Bare, PrintBare, Printable;
    if m <= Level(e) && (ArrowFn(e) ==> last) {
      PrintBareSpells(e, last);
    } else {
      PrintBareSpells(e, true);
      var ts := PrintBare(e, true);
      IsBare(ts, e, ASSIGN, true);
      InParens(ts, e, m, last);
    }
  }

  lemma {:induction false} InParens(ts: seq<Lex>, e: Expr, m: nat, last: bool)
    requires Spells(ts, e, ASSIGN, true)
    ensures Spells([OParen] + ts + [CParen], e, m, last)
  {
    hide Bare;
    assert ([OParen] + ts + [CParen])[1..|ts| + 1] == ts;
  }

  lemma {:induction false} PrintBareSpells(e: Expr, last: bool)
    requires Printable(e) && (ArrowFn(e) ==> last)
    ensures Bare(PrintBare(e, last), e, last)
    decreases e, 0
  {
    hide Spells, SpellsItems, SpellsPairs, SpellsFunction, Print, PrintItems, PrintPairs, PrintBound, PrintParams,
        PrintStmts;
    hide PrintableAll, PrintableStmts;
    match e
    case Binary(op, l, r) => PrintInfixSpells(OpTok(op), l, r, OpPrecedence(op), last);
    case Assign(op, l, r) => PrintInfixSpells(AssignTok(op), l, r, ASSIGN, last);
    case Unary(op, v) => PrintSpells(v, PREFIX, last);
    case Array(items) => PrintItemsSpells(items, CBracket);
    case MapLit(items) => PrintPairsSpells(items);
    case Member(t, x) =>
      PrintSpells(t, POSTFIX, false);
      assert PrintBare(e, last)[..|PrintBare(e, last)| - 2] == Print(t, POSTFIX, false);
    case Call(f, args) =>
      PrintSpells(f, POSTFIX, false);
      PrintItemsSpells(args, CParen);
      BareCall(Print(f, POSTFIX, false), PrintItems(args, CParen), f, args, last, PrintBare(e, last));
    case Subscript(t, k) =>
      PrintSpells(t, POSTFIX, false);
      PrintSpells(k, ASSIGN, true);
      BareSubscript(Print(t, POSTFIX, false), Print(k, ASSIGN, true), t, k, last, PrintBare(e, last));
    case Slice(t, a, b) =>
      PrintSpells(t, POSTFIX, false);
      PrintBoundSpells(a);
      PrintBoundSpells(b);
      BareSlice(Print(t, POSTFIX, false), PrintBound(a), PrintBound(b), t, a, b, last, PrintBare(e, last));
    case Fn(f) => PrintFnSpells(f, last);
    case _ =>
  }

  lemma {:induction false} PrintFnSpells(f: Function, last: bool)
    requires Printable(Fn(f)) && (ArrowFn(Fn(f)) ==> last)
    ensures Bare(PrintBare(Fn(f), last), Fn(f), last)
    decreases f, 2
  {
    hide Spells, SpellsFunction, Print, PrintParams, PrintStmts, PrintableStmts, SpellsParams, SpellsStmts;
    PrintParamsSpells(f.params);
    var names := PrintParams(f.params);
    var t, body := if f.code.Return? then Arrow else OBrace, if f.code.Return? then Print(f.code.result, ASSIGN, true)
        else PrintStmts(f.code.body);
    if f.code.Return? {
      PrintSpells(f.code.result, ASSIGN, true);
    } else {
      PrintStmtsSpells(f.code.body);
    }
    FunctionParts(names, t, body, f, last, names + ([t] + body));
    assert PrintBare(Fn(f), last)[1..] == names + ([t] + body);
  }

  lemma {:induction false} PrintParamsSpells(xs: seq<Name>)
    ensures SpellsParams(PrintParams(xs), xs)
  {
    hide SpellsParams;
    if xs == [] {
      NoParams();
    } else {
      PrintParamsSpells(xs[1..]);
      var inner := [Comma] + PrintParams(xs[1..]);
      assert SkipComma(inner) == PrintParams(xs[1..]);
      IsParams(PrintParams(xs), inner, xs);
    }
  }

  lemma {:induction false} PrintInfixSpells(op: Lex, l: Expr, r: Expr, q: nat, last: bool)
    requires (op.OpTok? || op.AssignTok?) && q == Precedence(op) && Printable(l) && Printable(r)
    ensures Bare(Print(l, q, false) + ([op] + Print(r, q + 1, last)), Applied(op, l, r), last)
    decreases Applied(op, l, r), -1
  {
    hide Bare, Print;
    PrintSpells(l, q, false);
    PrintSpells(r, q + 1, last);
    BareInfix(Print(l, q, false), op, Print(r, q + 1, last), l, r, q, last,
        Print(l, q, false) + ([op] + Print(r, q + 1, last)));
  }

  lemma {:induction false} PrintBoundSpells(b: Option<Expr>)
    requires b.Some? ==> Printable(b.value)
    ensures SpellsBound(PrintBound(b), b)
    decreases b
  {
    if b.Some? {
      PrintSpells(b.value, ASSIGN, true);
    }
  }

  lemma {:induction false} PrintItemsSpells(es: seq<Expr>, close: Lex)
    requires PrintableAll(es) && close in {CParen, CBracket}
    ensures SpellsItems(PrintItems(es, close), es, close)
    decreases es, 2
  {
    hide Spells, Print, Printable;
    if es != [] {
      PrintSpells(es[0], ASSIGN, true);
      PrintItemsSpells(es[1..], close);
      var r := [Comma] + PrintItems(es[1..], close);
      ItemsMore(Print(es[0], ASSIGN, true), r, PrintItems(es[1..], close), es, close, [], PrintItems(es, close));
    }
  }

  lemma {:induction false} PrintPairsSpells(es: seq<Expr>)
    requires |es| % 2 == 0 && PrintableAll(es)
    ensures SpellsPairs(PrintPairs(es), es)
    decreases es, 2
  {
    hide Spells, Print, Printable, PrintableAll;
    if es != [] {
      AllAfterTwo(es);
      PrintSpells(es[0], ASSIGN, true);
      PrintSpells(es[1], ASSIGN, true);
      PrintPairsSpells(es[2..]);
      var r := [Comma] + PrintPairs(es[2..]);
      PairsMore(Print(es[0], ASSIGN, true), Print(es[1], ASSIGN, true), r, PrintPairs(es[2..]), es, [], PrintPairs(es));
    }
  }

  lemma {:induction false} PrintStmtsSpells(body: seq<Stmt>)
    requires PrintableStmts(body)
    ensures SpellsStmts(PrintStmts(body), body)
    decreases body, 2
  {
    hide SpellsS, PrintS, PrintableS;
    if body != [] {
      var first, more := PrintS(body[0]), PrintStmts(body[1..]);
      PrintSSpells(body[0], Peek(more));
      PrintStmtsSpells(body[1..]);
      assert more == more + [];
      StmtsMore(first, more, body, more, [], PrintStmts(body));
    }
  }

  lemma {:induction false} PrintSSpells(s: Stmt, next: Lex)
    requires PrintableS(s, next)
    ensures SpellsS(PrintS(s), s, next)
    decreases s, 2
  {
    hide Spells, SpellsStmts, SpellsArm, SpellsCond, Print, PrintStmts, PrintArm, PrintElse, PrintableStmts, Printable;
    var ts := PrintS(s);
    match s
    case Block(body) =>
      PrintStmtsSpells(body);
      assert ts[1..] == PrintStmts(body);
    case Return(e) =>
      PrintSpells(e, ASSIGN, true);
      assert ts[1..] == Print(e, ASSIGN, true);
    case While(c, b) => PrintWhileSpells(c, b, next);
    case If(c, a, b) =>
      PrintIfSpells(c, a, b, next);
      assert ts[1..] == Print(c, ASSIGN, true) + if b.Some? then PrintArm(a) + ([ElseTok] + PrintElse(b.value))
          else PrintArm(a);
    case ExprStmt(e) =>
      PrintSpells(e, ASSIGN, true);
      FirstToken(Print(e, ASSIGN, true), e, ASSIGN, true);
      InParens(Print(e, ASSIGN, true), e, ASSIGN, true);
    case _ =>
  }

  lemma {:induction false} PrintWhileSpells(c: Expr, b: Stmt, next: Lex)
    requires PrintableS(While(c, b), next)
    ensures SpellsS(PrintS(While(c, b)), While(c, b), next)
    decreases While(c, b), 1
  {
    hide Spells, SpellsArm, Print, PrintArm;
    PrintSpells(c, ASSIGN, true);
    PrintArmSpells(b, next);
    var ts, test, arm := PrintS(While(c, b)), Print(c, ASSIGN, true), PrintArm(b);
    ArmStart(arm, b, next);
    assert ts[1..1 + |test|] == test && ts[1 + |test|..] == arm;
    assert WhileAt(ts, 1 + |test|, c, b, next);
  }

  lemma {:induction false} PrintIfSpells(c: Expr, a: Stmt, b: Option<Stmt>, next: Lex)
    requires PrintableS(If(c, a, b), next)
    ensures SpellsCond(Print(c, ASSIGN, true) + if b.Some? then PrintArm(a) + ([ElseTok] + PrintElse(b.value))
        else PrintArm(a), c, a, b, next)
    decreases If(c, a, b), 1
  {
    hide Spells, SpellsArm, SpellsElse, Print, PrintArm, PrintElse;
    var test, cases := Print(c, ASSIGN, true), if b.Some? then PrintArm(a) + ([ElseTok] + PrintElse(b.value))
        else PrintArm(a);
    PrintSpells(c, ASSIGN, true);
    if b.Some? {
      PrintArmSpells(a, ElseTok);
      PrintElseSpells(b.value, next);
      ElseParts(PrintArm(a), PrintElse(b.value), a, b.value, next, cases);
    } else {
      PrintArmSpells(a, next);
    }
    CondParts(test, cases, c, a, b, next, test + cases);
  }

  lemma {:induction false} CondParts(test: seq<Lex>, cases: seq<Lex>, c: Expr, a: Stmt, b: Option<Stmt>, next: Lex,
      used: seq<Lex>)
    requires Spells(test, c, ASSIGN, true) && SpellsCases(cases, a, b, next) && used == test + cases
    ensures SpellsCond(used, c, a, b, next)
  {
    hide Spells, SpellsCases, SpellsCond, Precedence;
    FirstToken(test, c, ASSIGN, true);
    CasesStart(cases, a, b, next);
    assert used[..|test|] == test && used[|test|..] == cases;
    IsCond(used, |test|, c, a, b, next);
  }

  lemma {:induction false} IsCond(ts: seq<Lex>, i: nat, c: Expr, a: Stmt, b: Option<Stmt>, next: Lex)
    requires 0 < i < |ts| && CondAt(ts, i, c, a, b, next)
    ensures SpellsCond(ts, c, a, b, next)
  {
    hide CondAt;
  }

  lemma {:induction false} PrintArmSpells(s: Stmt, next: Lex)
    requires PrintableS(s, next)
    ensures SpellsArm(PrintArm(s), s, next)
    decreases s, 3
  {
    hide SpellsStmts, PrintStmts, PrintableStmts;
    if s.Block? {
      PrintStmtsSpells(s.body);
      var body := PrintStmts(s.body);
      assert PrintArm(s) == [OBrace] + body;
      assert ([OBrace] + body)[1..] == body;
    } else {
      hide SpellsS, PrintS, PrintableS;
      PrintSSpells(s, next);
      assert ([Arrow] + PrintS(s))[1..] == PrintS(s);
    }
  }

  lemma {:induction false} PrintElseSpells(s: Stmt, next: Lex)
    requires PrintableS(s, next)
    ensures SpellsElse(PrintElse(s), s, next)
    decreases s, 4
  {
    hide SpellsArm, SpellsCond, PrintArm, PrintableS;
    if s.If? {
      PrintSSpells(s, next);
    } else {
      PrintArmSpells(s, next);
    }
  }

  lemma {:induction false} PrintProgramSpells(body: seq<Stmt>)
    requires PrintableProgram(body)
    ensures SpellsProgram(PrintProgram(body), body)
  {
    hide SpellsS, PrintS, PrintableS;
    if body != [] {
      var first, more := PrintS(body[0]), PrintProgram(body[1..]);
      PrintSSpells(body[0], Peek(more));
      PrintProgramSpells(body[1..]);
      StmtStart(first, body[0], Peek(more));
      var ts := PrintProgram(body);
      assert ts[..|first|] == first && ts[|first|..] == more;
    }
  }

  /** Printing a tree and parsing it gives the tree back and takes exactly the printed tokens, whatever
      follows that cannot continue an expression. */
  lemma {:induction false} RoundTrip(e: Expr, tail: seq<Lex>)
    requires Printable(e) && Precedence(Peek(tail)) == LOWEST
    ensures ParseExpr(Print(e, ASSIGN, true) + tail, LOWEST) == Ok(e, tail)
  {
    hide Spells, ParseExpr, Print, Printable;
    PrintSpells(e, ASSIGN, true);
    ReadWhole(Print(e, ASSIGN, true), e, tail);
  }

  // ----- whatever the parser returns can be printed -----

  lemma {:induction false} SpelledPrintable(ts: seq<Lex>, e: Expr, m: nat, last: bool)
    requires Spells(ts, e, m, last)
    ensures Printable(e)
    decreases |ts|, 3
  {
    hide Bare, Printable;
    if m <= Level(e) && Bare(ts, e, last) {
      BarePrintable(ts, e, last);
    } else {
      SpelledPrintable(ts[1..|ts| - 1], e, ASSIGN, true);
    }
  }

  lemma {:induction false} BarePrintable(ts: seq<Lex>, e: Expr, last: bool)
    requires Bare(ts, e, last)
    ensures Printable(e)
    decreases |ts|, 2
  {
    hide Spells, SpellsItems, SpellsPairs, SpellsFunction, PrintableAll, PrintableStmts;
    match e
    case Binary(op, l, r) =>
      var i :| 0 <= i < |ts| && Infix(ts, i, OpTok(op), l, r, OpPrecedence(op), last);
      SpelledPrintable(ts[..i], l, OpPrecedence(op), false);
      SpelledPrintable(ts[i + 1..], r, OpPrecedence(op) + 1, last);
    case Assign(op, l, r) =>
      var i :| 0 <= i < |ts| && Infix(ts, i, AssignTok(op), l, r, ASSIGN, last);
      SpelledPrintable(ts[..i], l, ASSIGN, false);
      SpelledPrintable(ts[i + 1..], r, ASSIGN + 1, last);
    case Call(f, args) =>
      var i :| 0 <= i < |ts| && CallAt(ts, i, f, args);
      SpelledPrintable(ts[..i], f, POSTFIX, false);
      ItemsPrintable(ts[i + 1..], args, CParen);
    case Member(t, x) => SpelledPrintable(ts[..|ts| - 2], t, POSTFIX, false);
    case Subscript(t, k) =>
      var i :| 0 <= i < |ts| && SubscriptAt(ts, i, t, k);
      SpelledPrintable(ts[..i], t, POSTFIX, false);
      SpelledPrintable(ts[i + 1..|ts| - 1], k, ASSIGN, true);
    case Slice(t, a, b) =>
      var i, c :| 0 <= i < c < |ts| && SliceAt(ts, i, c, t, a, b);
      SpelledPrintable(ts[..i], t, POSTFIX, false);
      BoundPrintable(ts[i + 1..c], a);
      BoundPrintable(ts[c + 1..|ts| - 1], b);
    case Unary(op, v) => SpelledPrintable(ts[1..], v, PREFIX, last);
    case Array(items) => ItemsPrintable(ts[1..], items, CBracket);
    case MapLit(items) => PairsPrintable(ts[1..], items);
    case Fn(f) => FunctionPrintable(ts[1..], f, last);
    case _ =>
  }

  lemma {:induction false} BoundPrintable(ts: seq<Lex>, b: Option<Expr>)
    requires SpellsBound(ts, b)
    ensures b.Some? ==> Printable(b.value)
    decreases |ts|, 4
  {
    if b.Some? {
      SpelledPrintable(ts, b.value, ASSIGN, true);
    }
  }

  lemma {:induction false} ItemsPrintable(ts: seq<Lex>, es: seq<Expr>, close: Lex)
    requires SpellsItems(ts, es, close)
    ensures PrintableAll(es)
    decreases |ts|, 1
  {
    hide Spells, Printable;
    if es != [] {
      var i :| 0 < i < |ts| && ItemAt(ts, i, es, close);
      SpelledPrintable(ts[..i], es[0], ASSIGN, true);
      ItemsPrintable(SkipComma(ts[i..]), es[1..], close);
    }
  }

  lemma {:induction false} PairsPrintable(ts: seq<Lex>, es: seq<Expr>)
    requires SpellsPairs(ts, es)
    ensures |es| % 2 == 0 && PrintableAll(es)
    decreases |ts|, 1
  {
    hide Spells, Printable, PrintableAll, SpellsPairs;
    NoPairs(ts, es);
    if es != [] {
      var c, i := PairsSplit(ts, es);
      SpelledPrintable(ts[..c], es[0], ASSIGN, true);
      SpelledPrintable(ts[c + 1..i], es[1], ASSIGN, true);
      PairsPrintable(SkipComma(ts[i..]), es[2..]);
      AllAfterTwo(es);
    }
  }

  lemma {:induction false} NoPairs(ts: seq<Lex>, es: seq<Expr>)
    requires SpellsPairs(ts, es)
    ensures es == [] || |es| >= 2
    ensures PrintableAll([])
  {
  }

  lemma {:induction false} PairsSplit(ts: seq<Lex>, es: seq<Expr>) returns (c: nat, i: nat)
    requires SpellsPairs(ts, es) && |es| >= 2
    ensures c < i < |ts| && PairAt(ts, c, i, es)
  {
    hide PairAt;
    c, i :| 0 <= c < i < |ts| && PairAt(ts, c, i, es);
  }

  lemma {:induction false} AllAfterTwo(es: seq<Expr>)
    requires |es| >= 2
    ensures PrintableAll(es) <==> Printable(es[0]) && Printable(es[1]) && PrintableAll(es[2..])
  {
    hide Printable;
    assert es[1..][0] == es[1] && es[1..][1..] == es[2..];
  }

  lemma {:induction false} FunctionPrintable(ts: seq<Lex>, f: Function, last: bool)
    requires SpellsFunction(ts, f, last)
    ensures Printable(Fn(f))
    decreases |ts|, 1
  {
    hide Spells, SpellsStmts, SpellsParams, PrintableStmts;
    var i :| 0 <= i < |ts| && FunctionAt(ts, i, f, last);
    if f.code.Return? {
      SpelledPrintable(ts[i + 1..], f.code.result, ASSIGN, true);
    } else {
      StmtsPrintable(ts[i + 1..], f.code.body);
    }
  }

  // What may stand before the one token may stand before the other.
  predicate NoWorse(next: Lex, next': Lex) {
    (Precedence(next) == LOWEST ==> Precedence(next') == LOWEST) && (next != ElseTok ==> next' != ElseTok)
  }

  lemma {:induction false} StmtsPrintable(ts: seq<Lex>, body: seq<Stmt>)
    requires SpellsStmts(ts, body)
    ensures PrintableStmts(body) && NoWorse(ts[0], Peek(PrintStmts(body)))
    decreases |ts|, 7
  {
    hide SpellsS, PrintableS, PrintS;
    StmtsStart(ts, body);
    if body != [] {
      var i :| 0 < i < |ts| && StmtAt(ts, i, body);
      StmtsPrintable(ts[i..], body[1..]);
      StmtPrintable(ts[..i], body[0], ts[i], Peek(PrintStmts(body[1..])));
      assert Peek(PrintStmts(body)) == Peek(PrintS(body[0]));
    }
  }

  lemma {:induction false} StmtPrintable(ts: seq<Lex>, s: Stmt, next: Lex, next': Lex)
    requires SpellsS(ts, s, next) && NoWorse(next, next')
    ensures PrintableS(s, next') && PrintS(s) != [] && NoWorse(ts[0], PrintS(s)[0])
    decreases |ts|, 5
  {
    hide Spells, SpellsStmts, SpellsArm, SpellsCond, Printable, PrintableStmts, Print, PrintStmts, PrintArm, PrintElse;
    if s.While? {
      LoopPrintable(ts, s.condition, s.loopBody, next, next');
    } else if s.If? {
      CondPrintable(ts[1..], s.condition, s.thenCase, s.elseCase, next, next');
    } else if s.Block? {
      StmtsPrintable(ts[1..], s.body);
    } else if s.Return? {
      SpelledPrintable(ts[1..], s.result, ASSIGN, true);
    } else if s.ExprStmt? {
      SpelledPrintable(ts, s.expr, ASSIGN, true);
      ExprStmtFirst(ts, s.expr);
    }
  }

  lemma {:induction false} LoopPrintable(ts: seq<Lex>, c: Expr, b: Stmt, next: Lex, next': Lex)
    requires SpellsS(ts, While(c, b), next) && NoWorse(next, next')
    ensures Printable(c) && PrintableS(b, next')
    decreases |ts|, 4
  {
    hide Spells, SpellsArm, Printable, PrintableS;
    var i :| 0 < i < |ts| && WhileAt(ts, i, c, b, next);
    SpelledPrintable(ts[1..i], c, ASSIGN, true);
    ArmPrintable(ts[i..], b, next, next');
  }

  lemma {:induction false} ExprStmtFirst(ts: seq<Lex>, e: Expr)
    requires Spells(ts, e, ASSIGN, true) && ts != [] && ts[0] != OBrace
    ensures PrintExprStmt(e) != [] && NoWorse(ts[0], PrintExprStmt(e)[0])
  {
    hide Spells, Print;
    PrintStart(e, ASSIGN, true);
    if ts[0] != OParen {
      FirstPrinted(ts, e, ASSIGN, true);
    }
  }

  lemma {:induction false} ArmPrintable(ts: seq<Lex>, s: Stmt, next: Lex, next': Lex)
    requires SpellsArm(ts, s, next) && NoWorse(next, next')
    ensures PrintableS(s, next')
    decreases |ts|, 6
  {
    hide SpellsS, SpellsStmts, PrintS, PrintStmts, PrintableStmts;
    if ts[0] == Arrow && SpellsS(ts[1..], s, next) {
      StmtPrintable(ts[1..], s, next, next');
    } else {
      StmtsPrintable(ts[1..], s.body);
    }
  }

  lemma {:induction false} CondPrintable(ts: seq<Lex>, c: Expr, a: Stmt, b: Option<Stmt>, next: Lex, next': Lex)
    requires SpellsCond(ts, c, a, b, next) && NoWorse(next, next')
    ensures PrintableS(If(c, a, b), next')
    decreases |ts|, 7
  {
    hide Spells, SpellsCases, Printable, PrintableS;
    var i :| 0 < i < |ts| && CondAt(ts, i, c, a, b, next);
    SpelledPrintable(ts[..i], c, ASSIGN, true);
    CasesPrintable(ts[i..], c, a, b, next, next');
  }

  lemma IfPrintable(c: Expr, a: Stmt, b: Option<Stmt>, next: Lex)
    requires Printable(c)
    requires if b.Some? then PrintableS(a, ElseTok) && PrintableS(b.value, next)
             else PrintableS(a, next) && next != ElseTok
    ensures PrintableS(If(c, a, b), next)
  {
    hide Printable;
  }

  lemma {:induction false} CasesPrintable(ts: seq<Lex>, c: Expr, a: Stmt, b: Option<Stmt>, next: Lex, next': Lex)
    requires SpellsCases(ts, a, b, next) && NoWorse(next, next') && Printable(c)
    ensures PrintableS(If(c, a, b), next')
    decreases |ts|, 9
  {
    hide SpellsArm, SpellsElse, Printable, PrintableS, Precedence;
    if b.Some? {
      TwoCasesPrintable(ts, a, b.value, next, next');
    } else {
      ArmPrintable(ts, a, next, next');
    }
    IfPrintable(c, a, b, next');
  }

  lemma {:induction false} TwoCasesPrintable(ts: seq<Lex>, a: Stmt, b: Stmt, next: Lex, next': Lex)
    requires SpellsCases(ts, a, Some(b), next) && NoWorse(next, next')
    ensures PrintableS(a, ElseTok) && PrintableS(b, next')
    decreases |ts|, 8
  {
    hide SpellsArm, SpellsElse, PrintableS, Precedence;
    var j :| 0 < j < |ts| && ElseAt(ts, j, a, b, next);
    ArmPrintable(ts[..j], a, ElseTok, ElseTok);
    ElsePrintable(ts[j + 1..], b, next, next');
  }

  lemma {:induction false} ElsePrintable(ts: seq<Lex>, b: Stmt, next: Lex, next': Lex)
    requires SpellsElse(ts, b, next) && NoWorse(next, next')
    ensures PrintableS(b, next')
    decreases |ts|, 8
  {
    hide SpellsArm, SpellsCond, PrintableS;
    if ts != [] && ts[0] == IfTok && b.If? && SpellsCond(ts[1..], b.condition, b.thenCase, b.elseCase, next) {
      CondPrintable(ts[1..], b.condition, b.thenCase, b.elseCase, next, next');
      assert b == If(b.condition, b.thenCase, b.elseCase);
    } else {
      ArmPrintable(ts, b, next, next');
    }
  }

  // The left operand and the layer at which it stands.
  function LeftOf(e: Expr): (r: Option<(Expr, nat)>)
    ensures r.Some? ==> r.value.0 < e
  {
    match e
    case Binary(op, l, _) => Some((l, OpPrecedence(op)))
    case Assign(_, l, _) => Some((l, ASSIGN))
    case Call(f, _) => Some((f, POSTFIX))
    case Member(t, _) => Some((t, POSTFIX))
    case Subscript(t, _) => Some((t, POSTFIX))
    case Slice(t, _, _) => Some((t, POSTFIX))
    case _ => None
  }

  lemma PrintsLeft(e: Expr, l: Expr, q: nat, last: bool)
    requires LeftOf(e) == Some((l, q)) && Print(l, q, false) != []
    ensures PrintBare(e, last) != [] && PrintBare(e, last)[0] == Print(l, q, false)[0]
  {
    hide Print, PrintItems, PrintPairs, PrintBound, PrintStmts, PrintParams;
  }

  lemma SpellsLeft(ts: seq<Lex>, e: Expr, l: Expr, q: nat, last: bool) returns (i: nat)
    requires LeftOf(e) == Some((l, q)) && Bare(ts, e, last)
    ensures i < |ts| && Spells(ts[..i], l, q, false)
  {
    hide Spells, SpellsItems, SpellsPairs, SpellsFunction, SpellsBound;
    match e
    case Binary(op, _, r) => i :| 0 <= i < |ts| && Infix(ts, i, OpTok(op), l, r, q, last);
    case Assign(op, _, r) => i :| 0 <= i < |ts| && Infix(ts, i, AssignTok(op), l, r, q, last);
    case Call(_, args) => i :| 0 <= i < |ts| && CallAt(ts, i, l, args);
    case Member(_, x) => i := |ts| - 2;
    case Subscript(_, k) => i :| 0 <= i < |ts| && SubscriptAt(ts, i, l, k);
    case Slice(_, a, b) =>
      var c: nat;
      i, c :| 0 <= i < c < |ts| && SliceAt(ts, i, c, l, a, b);
  }

  lemma {:induction false} PrintStart(e: Expr, m: nat, last: bool)
    ensures Print(e, m, last) != [] && Starts(Print(e, m, last)[0])
    decreases e
  {
    hide PrintItems, PrintPairs, PrintBound, PrintStmts, PrintParams;
    var left := LeftOf(e);
    if left.Some? {
      PrintStart(left.value.0, left.value.1, false);
      PrintsLeft(e, left.value.0, left.value.1, last);
    }
  }

  // A spelling that starts without a parenthesis is printed with the same first token.
  lemma {:induction false} FirstPrinted(ts: seq<Lex>, e: Expr, m: nat, last: bool)
    requires Spells(ts, e, m, last) && ts != [] && ts[0] != OParen
    ensures Print(e, m, last) != [] && Print(e, m, last)[0] == ts[0]
    decreases |ts|, 1
  {
    hide Spells, Bare, PrintBare, LeftOf;
    NoParens(ts, e, m, last);
    var left := LeftOf(e);
    if left.Some? {
      var l, q := left.value.0, left.value.1;
      var i := SpellsLeft(ts, e, l, q, last);
      LeftPrinted(ts, i, l, q);
      PrintsLeft(e, l, q, last);
    } else {
      AtomPrinted(ts, e, last);
    }
  }

  lemma AtomPrinted(ts: seq<Lex>, e: Expr, last: bool)
    requires LeftOf(e).None? && Bare(ts, e, last)
    ensures PrintBare(e, last) != [] && ts != [] && PrintBare(e, last)[0] == ts[0]
  {
    hide Spells, SpellsItems, SpellsPairs, SpellsFunction, Print, PrintItems, PrintPairs, PrintBound, PrintStmts,
        PrintParams;
  }

  lemma {:induction false} LeftPrinted(ts: seq<Lex>, i: nat, l: Expr, q: nat)
    requires i < |ts| && Spells(ts[..i], l, q, false) && ts[0] != OParen
    ensures Print(l, q, false) != [] && Print(l, q, false)[0] == ts[0]
    decreases i, 2
  {
    hide Spells, Print;
    FirstToken(ts[..i], l, q, false);
    FirstPrinted(ts[..i], l, q, false);
  }

  lemma {:induction false} NoParens(ts: seq<Lex>, e: Expr, m: nat, last: bool)
    requires Spells(ts, e, m, last) && ts != [] && ts[0] != OParen
    ensures m <= Level(e) && Bare(ts, e, last) && (ArrowFn(e) ==> last)
  {
    hide SpellsFunction, SpellsItems, SpellsPairs;
    if e.Fn? {
      FnArrow(ts[1..], e.fn, last);
    }
  }

  lemma {:induction false} FnArrow(ts: seq<Lex>, f: Function, last: bool)
    requires SpellsFunction(ts, f, last)
    ensures f.code.Return? ==> last
  {
    hide Spells, SpellsParams, SpellsStmts;
    var i :| 0 <= i < |ts| && FunctionAt(ts, i, f, last);
  }

  lemma {:induction false} ProgramPrintable(ts: seq<Lex>, body: seq<Stmt>)
    requires SpellsProgram(ts, body)
    ensures PrintableProgram(body) && NoWorse(Peek(ts), Peek(PrintProgram(body)))
    decreases |ts|
  {
    hide SpellsS, PrintableS, PrintS;
    if body != [] {
      var i :| 0 < i <= |ts| && SpellsS(ts[..i], body[0], Peek(ts[i..])) && SpellsProgram(ts[i..], body[1..]);
      ProgramPrintable(ts[i..], body[1..]);
      StmtPrintable(ts[..i], body[0], Peek(ts[i..]), Peek(PrintProgram(body[1..])));
      assert Peek(PrintProgram(body)) == Peek(PrintS(body[0]));
    }
  }

  /** Printing what was parsed from a file and parsing it again gives the same program. */
  lemma {:induction false} FormatProgram(ts: seq<Lex>, program: seq<Stmt>, rest: seq<Lex>)
    requires ParseProgram(ts) == Ok(program, rest)
    ensures ParseProgram(PrintProgram(program) + rest) == Ok(program, rest)
  {
    hide SpellsProgram, ParseProgram, PrintableProgram, PrintProgram;
    var used := ProgramSpelled(ts, program, rest);
    ProgramPrintable(used, program);
    PrintProgramSpells(program);
    ReadProgram(PrintProgram(program), program, rest);
  }
}

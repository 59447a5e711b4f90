/**
 The grammar of Nur as its Pratt parser reads it (src/parser.c), on tokens that carry their meaning. Module
 Parser builds the arena of nodes that the source builds and is proved to follow these functions.
 */
module Grammar {
  import opened Syntax

  datatype Lex =
    | Eof | Bad
    // None: malformed
    | Id(x: Name) | StrLit(s: Option<seq<Byte>>) | IntLit(n: Option<Bits64>) | FloatLit(d: Option<Double>)
    | OParen | CParen | OBrace | CBrace | OBracket | CBracket
    | Arrow | Bang | Dot | Comma | Colon
    | AssignTok(assigns: Option<BinaryOp>)
    | OpTok(op: BinaryOp)
    | IfTok | ElseTok | WhileTok | BreakTok | ContinueTok | FnTok | ReturnTok

  // ----- precedence -----

  const LOWEST: nat := 0
  const ASSIGN: nat := 1
  const COMPARISON: nat := 2
  const SUM: nat := 3
  const PRODUCT: nat := 4
  const EXPONENT: nat := 5
  const PREFIX: nat := 6
  const POSTFIX: nat := 7

  function OpPrecedence(op: BinaryOp): (p: nat)
    ensures ASSIGN < p < PREFIX
  {
    match op
    case Add => SUM
    case Sub => SUM
    case Mul => PRODUCT
    case Div => PRODUCT
    case Mod => PRODUCT
    case Pow => EXPONENT
    case _ => COMPARISON
  }

  // precedence_of.
  function Precedence(t: Lex): (p: nat)
    ensures p <= POSTFIX
  {
    match t
    case AssignTok(_) => ASSIGN
    case OpTok(op) => OpPrecedence(op)
    case OParen => POSTFIX
    case OBracket => POSTFIX
    case Dot => POSTFIX
    case _ => LOWEST
  }

  // ----- parsing -----

  // What was accepted: its tree, if it has one, and whether there was no error inside brackets.
  datatype Got<+T> = Got(tree: Option<T>, clean: bool)

  function Sure<T>(tree: T): Got<T> {
    Got(Some(tree), true)
  }

  /** What a parsing function leaves. Broken: there was an error inside the brackets of a subscript, where it goes
      unnoticed (parse_subscript_access does not look at what parse_expr returns), and the parser goes on, with a tree
      or without. Fail: it gives up. In each case `rest` are the tokens not taken. */
  datatype Parse<+T> = Ok(value: T, rest: seq<Lex>) | Broken(tree: Option<T>, rest: seq<Lex>) | Fail(rest: seq<Lex>) {
    function Tree(): Option<T> {
      match this
      case Ok(value, _) => Some(value)
      case Broken(tree, _) => tree
      case Fail(_) => None
    }

    predicate IsFailure() {
      Fail?
    }

    function PropagateFailure<U>(): Parse<U>
      requires Fail?
    {
      Parse.Fail(rest)
    }

    function Extract(): (Got<T>, seq<Lex>)
      requires !Fail?
    {
      (Got(Tree(), Ok?), rest)
    }
  }

  // Parsing goes on, with a tree if there is one.
  function Made<T>(tree: Option<T>, clean: bool, rest: seq<Lex>): (r: Parse<T>)
    ensures r.rest == rest && !r.Fail? && r.Tree() == tree && (r.Ok? <==> clean && tree.Some?)
  {
    if clean && tree.Some? then Ok(tree.value, rest) else Broken(tree, rest)
  }

  // The items read so far and then those to come.
  function Prepend<T>(xs: Got<seq<T>>, r: Parse<seq<T>>): (p: Parse<seq<T>>)
    ensures p.rest == r.rest && (p.Fail? <==> r.Fail?) && (p.Ok? <==> xs.clean && xs.tree.Some? && r.Ok?)
  {
    if r.Fail? then r
    else
      Made(if xs.tree.Some? && r.Tree().Some? then Some(xs.tree.value + r.Tree().value) else None, xs.clean && r.Ok?,
        r.rest)
  }

  function Single<T>(x: Got<T>): Got<seq<T>> {
    Got(if x.tree.Some? then Some([x.tree.value]) else None, x.clean)
  }

  function Peek(ts: seq<Lex>): Lex {
    if ts == [] then Eof else ts[0]
  }

  function Rest(ts: seq<Lex>): seq<Lex> {
    if ts == [] then [] else ts[1..]
  }

  function SkipComma(ts: seq<Lex>): (r: seq<Lex>)
    ensures |r| <= |ts|
  {
    if Peek(ts) == Comma then Rest(ts) else ts
  }

  function ParseExpr(ts: seq<Lex>, p: nat): (r: Parse<Expr>)
    ensures |r.rest| <= |ts| && (!r.Fail? ==> |r.rest| < |ts|)
    decreases |ts|, 3
  {
    var (lhs, r) :- ParseUnary(ts);
    ParseLoop(lhs, r, p)
  }

  function ParseLoop(lhs: Got<Expr>, ts: seq<Lex>, p: nat): (r: Parse<Expr>)
    ensures |r.rest| <= |ts| && (r.Ok? ==> lhs.clean && lhs.tree.Some?)
    decreases |ts|, 1
  {
    if Precedence(Peek(ts)) > p then
      var (e, r) :- ParseBinary(lhs, ts);
      ParseLoop(e, r, p)
    else Made(lhs.tree, lhs.clean, ts)
  }

  function ParseBinary(lhs: Got<Expr>, ts: seq<Lex>): (r: Parse<Expr>)
    requires Precedence(Peek(ts)) > LOWEST
    ensures |r.rest| < |ts| && (r.Ok? ==> lhs.clean && lhs.tree.Some?)
    decreases |ts|, 0
  {
    match Peek(ts)
    case AssignTok(op) =>
      var (v, r) :- ParseExpr(Rest(ts), ASSIGN);
      Made(if lhs.tree.Some? && v.tree.Some? then Some(Assign(op, lhs.tree.value, v.tree.value)) else None,
        lhs.clean && v.clean, r)
    case OParen =>
      var (args, r) :- ParseItems(Rest(ts), CParen);
      Made(if lhs.tree.Some? && args.tree.Some? then Some(Call(lhs.tree.value, args.tree.value)) else None,
        lhs.clean && args.clean, r)
    case Dot => ParseMember(lhs, Rest(ts))
    case OBracket => ParseSubscript(lhs, Rest(ts))
    case OpTok(op) =>
      var (rhs, r) :- ParseExpr(Rest(ts), OpPrecedence(op));
      Made(if lhs.tree.Some? && rhs.tree.Some? then Some(Binary(op, lhs.tree.value, rhs.tree.value)) else None,
        lhs.clean && rhs.clean, r)
  }

  // After '.'.
  function ParseMember(target: Got<Expr>, ts: seq<Lex>): (r: Parse<Expr>)
    ensures |r.rest| <= |ts| && (r.Ok? ==> target.clean && target.tree.Some?)
  {
    if !Peek(ts).Id? then Fail(ts)
    else Made(if target.tree.Some? then Some(Member(target.tree.value, Peek(ts).x)) else None, target.clean, Rest(ts))
  }

  // What must follow, then the result.
  function Closed<T>(g: Got<T>, ts: seq<Lex>, close: Lex): (r: Parse<T>)
    requires close != Eof
    ensures |r.rest| <= |ts| && (!r.Fail? ==> |r.rest| < |ts|) && (r.Ok? ==> g.clean && g.tree.Some?)
  {
    if Peek(ts) == close then Made(g.tree, g.clean, Rest(ts)) else Fail(ts)
  }

  // After '['. A failure inside the brackets goes unnoticed: what must follow is looked for where it happened.
  function ParseSubscript(target: Got<Expr>, ts: seq<Lex>): (r: Parse<Expr>)
    ensures |r.rest| <= |ts| && (!r.Fail? ==> |r.rest| < |ts|) && (r.Ok? ==> target.clean && target.tree.Some?)
    decreases |ts|, 5
  {
    if Peek(ts) == Colon then ParseSliceEnd(Front(target, Sure(None)), Rest(ts))
    else
      var start := ParseExpr(ts, LOWEST);
      if Peek(start.rest) == Colon then ParseSliceEnd(Front(target, Bound(start)), Rest(start.rest))
      else Closed(Indexed(target, start), start.rest, CBracket)
  }

  function Indexed(target: Got<Expr>, index: Parse<Expr>): Got<Expr> {
    Got(if target.tree.Some? && index.Tree().Some? then Some(Subscript(target.tree.value, index.Tree().value))
        else None,
      target.clean && index.Ok?)
  }

  // A bound of a slice: where parse_expr fails, it looks like one that is absent.
  function Bound(bound: Parse<Expr>): Got<Option<Expr>> {
    match bound
    case Ok(e, _) => Sure(Some(e))
    case Broken(tree, _) => Got(if tree.Some? then Some(tree) else None, false)
    case Fail(_) => Got(Some(None), false)
  }

  // The target and the start of a slice.
  function Front(target: Got<Expr>, start: Got<Option<Expr>>): Got<(Expr, Option<Expr>)> {
    Got(if target.tree.Some? && start.tree.Some? then Some((target.tree.value, start.tree.value)) else None,
      target.clean && start.clean)
  }

  // After the ':' of a slice.
  function ParseSliceEnd(front: Got<(Expr, Option<Expr>)>, ts: seq<Lex>): (r: Parse<Expr>)
    ensures |r.rest| <= |ts| && (!r.Fail? ==> |r.rest| < |ts|) && (r.Ok? ==> front.clean && front.tree.Some?)
    decreases |ts|, 4
  {
    if Peek(ts) == CBracket then Closed(SliceTo(front, Sure(None)), ts, CBracket)
    else
      var end := ParseExpr(ts, LOWEST);
      Closed(SliceTo(front, Bound(end)), end.rest, CBracket)
  }

  function SliceTo(front: Got<(Expr, Option<Expr>)>, end: Got<Option<Expr>>): Got<Expr> {
    Got(if front.tree.Some? && end.tree.Some? then
          Some(Slice(front.tree.value.0, front.tree.value.1, end.tree.value)) else None,
      front.clean && end.clean)
  }

  // Expressions up to a closing token; commas between them may be left out.
  function ParseItems(ts: seq<Lex>, close: Lex): (r: Parse<seq<Expr>>)
    requires close != Eof
    ensures |r.rest| <= |ts| && (!r.Fail? ==> |r.rest| < |ts|)
    decreases |ts|, 4
  {
    if Peek(ts) == close then Ok([], Rest(ts))
    else
      var (e, r) :- ParseExpr(ts, LOWEST);
      if Peek(SkipComma(r)) == Eof then Fail(SkipComma(r))
      else Prepend(Single(e), ParseItems(SkipComma(r), close))
  }

  // A key and its value.
  function ParsePair(ts: seq<Lex>): (r: Parse<seq<Expr>>)
    ensures |r.rest| <= |ts| && (!r.Fail? ==> |r.rest| < |ts|)
        && (r.Tree().Some? ==> |r.Tree().value| == 2)
    decreases |ts|, 4
  {
    var (k, r) :- ParseExpr(ts, LOWEST);
    if Peek(r) != Colon then Fail(r)
    else
      var (v, r1) :- ParseExpr(Rest(r), LOWEST);
      Made(if k.tree.Some? && v.tree.Some? then Some([k.tree.value, v.tree.value]) else None, k.clean && v.clean, r1)
  }

  function ParsePairs(ts: seq<Lex>): (r: Parse<seq<Expr>>)
    ensures |r.rest| <= |ts| && (!r.Fail? ==> |r.rest| < |ts|)
    decreases |ts|, 5
  {
    if Peek(ts) == CBrace then Ok([], Rest(ts))
    else
      var (pair, r) :- ParsePair(ts);
      if Peek(SkipComma(r)) == Eof then Fail(SkipComma(r))
      else Prepend(pair, ParsePairs(SkipComma(r)))
  }

  function ParseUnary(ts: seq<Lex>): (r: Parse<Expr>)
    ensures |r.rest| <= |ts| && (!r.Fail? ==> |r.rest| < |ts|)
    decreases |ts|, 2
  {
    match Peek(ts)
    case Id(x) => Ok(Ident(x), Rest(ts))
    case StrLit(s) => if s.Some? then Ok(Str(s.value), Rest(ts)) else Fail(Rest(ts))
    case IntLit(n) => if n.Some? then Ok(Int(n.value), Rest(ts)) else Fail(Rest(ts))
    case FloatLit(d) => if d.Some? then Ok(Float(d.value), Rest(ts)) else Fail(Rest(ts))
    case OParen =>
      var (e, r) :- ParseExpr(Rest(ts), LOWEST);
      Closed(e, r, CParen)
    case FnTok => ParseFunction(Rest(ts))
    case OBracket =>
      var (items, r) :- ParseItems(Rest(ts), CBracket);
      Made(if items.tree.Some? then Some(Array(items.tree.value)) else None, items.clean, r)
    case OBrace =>
      var (items, r) :- ParsePairs(Rest(ts));
      Made(if items.tree.Some? then Some(MapLit(items.tree.value)) else None, items.clean, r)
    case OpTok(Sub) => ParsePrefix(Neg, Rest(ts))
    case Bang => ParsePrefix(Not, Rest(ts))
    case _ => Fail(ts)
  }

  // After a prefix operator.
  function ParsePrefix(op: UnaryOp, ts: seq<Lex>): (r: Parse<Expr>)
    ensures |r.rest| <= |ts| && (!r.Fail? ==> |r.rest| < |ts|)
    decreases |ts|, 4
  {
    var (e, r) :- ParseExpr(ts, PREFIX);
    Made(if e.tree.Some? then Some(Unary(op, e.tree.value)) else None, e.clean, r)
  }

  // ----- functions and statements -----

  function ParseParams(ts: seq<Lex>): (r: Parse<seq<Name>>)
    ensures |r.rest| <= |ts| && !r.Broken? && (r.Ok? ==> Peek(r.rest) == Arrow || Peek(r.rest) == OBrace)
    decreases |ts|
  {
    match Peek(ts)
    case Arrow => Ok([], ts)
    case OBrace => Ok([], ts)
    case Id(x) =>
      if Peek(SkipComma(Rest(ts))) == Eof then Fail(SkipComma(Rest(ts)))
      else Prepend(Sure([x]), ParseParams(SkipComma(Rest(ts))))
    case _ => Fail(ts)
  }

  // After 'fn'.
  function ParseFunction(ts: seq<Lex>): (r: Parse<Expr>)
    ensures |r.rest| <= |ts| && (!r.Fail? ==> |r.rest| < |ts|)
    decreases |ts|, 5
  {
    var (params, r) :- ParseParams(ts);
    var (code, r1) :- if Peek(r) == Arrow then Returned(ParseExpr(Rest(r), LOWEST)) else Blocked(ParseStmts(Rest(r)));
    Made(if params.tree.Some? && code.tree.Some? then Some(Fn(Function(params.tree.value, code.tree.value))) else None,
      params.clean && code.clean, r1)
  }

  function Returned(r: Parse<Expr>): (s: Parse<Stmt>)
    ensures s.rest == r.rest && (s.Fail? <==> r.Fail?) && (s.Ok? <==> r.Ok?) && (s.Tree().Some? <==> r.Tree().Some?)
  {
    var (e, rest) :- r;
    Made(if e.tree.Some? then Some(Return(e.tree.value)) else None, e.clean, rest)
  }

  function Blocked(r: Parse<seq<Stmt>>): (s: Parse<Stmt>)
    ensures s.rest == r.rest && (s.Fail? <==> r.Fail?) && (s.Ok? <==> r.Ok?) && (s.Tree().Some? <==> r.Tree().Some?)
  {
    var (body, rest) :- r;
    Made(if body.tree.Some? then Some(Block(body.tree.value)) else None, body.clean, rest)
  }

  // Statements up to '}'.
  function ParseStmts(ts: seq<Lex>): (r: Parse<seq<Stmt>>)
    ensures |r.rest| <= |ts| && (!r.Fail? ==> |r.rest| < |ts|)
    decreases |ts|, 6
  {
    if Peek(ts) == CBrace then Ok([], Rest(ts))
    else
      var (s, r) :- ParseStmt(ts);
      if Peek(r) == Eof then Fail(r)
      else Prepend(Single(s), ParseStmts(r))
  }

  // The body of a loop or conditional: '=>' and a statement, or a block.
  function ParseArm(ts: seq<Lex>): (r: Parse<Stmt>)
    ensures |r.rest| <= |ts| && (!r.Fail? ==> |r.rest| < |ts|)
    decreases |ts|, 4
  {
    match Peek(ts)
    case Arrow => ParseStmt(Rest(ts))
    case OBrace => Blocked(ParseStmts(Rest(ts)))
    case _ => Fail(ts)
  }

  // After 'if'.
  function ParseConditional(ts: seq<Lex>): (r: Parse<Stmt>)
    ensures |r.rest| <= |ts| && (!r.Fail? ==> |r.rest| < |ts|)
    decreases |ts|, 4
  {
    var (cond, r) :- ParseExpr(ts, LOWEST);
    var (a, r1) :- ParseArm(r);
    var (b, r2) :- ParseElse(r1);
    var known := cond.tree.Some? && a.tree.Some? && b.tree.Some?;
    Made(if known then Some(If(cond.tree.value, a.tree.value, b.tree.value)) else None,
      cond.clean && a.clean && b.clean, r2)
  }

  // The part from 'else' on, if there is one.
  function ParseElse(ts: seq<Lex>): (r: Parse<Option<Stmt>>)
    ensures |r.rest| <= |ts|
    decreases |ts|, 6
  {
    if Peek(ts) != ElseTok then Ok(None, ts)
    else
      var (b, r) :- ParseCase(Rest(ts));
      Made(if b.tree.Some? then Some(b.tree) else None, b.clean, r)
  }

  // After 'else': 'if' again, or an arm.
  function ParseCase(ts: seq<Lex>): (r: Parse<Stmt>)
    ensures |r.rest| <= |ts| && (!r.Fail? ==> |r.rest| < |ts|)
    decreases |ts|, 5
  {
    if Peek(ts) == IfTok then ParseConditional(Rest(ts)) else ParseArm(ts)
  }

  function ParseStmt(ts: seq<Lex>): (r: Parse<Stmt>)
    ensures |r.rest| <= |ts| && (!r.Fail? ==> |r.rest| < |ts|)
    decreases |ts|, 5
  {
    match Peek(ts)
    case OBrace => Blocked(ParseStmts(Rest(ts)))
    case WhileTok => ParseWhile(Rest(ts))
    case IfTok => ParseConditional(Rest(ts))
    case ReturnTok => Returned(ParseExpr(Rest(ts), LOWEST))
    case BreakTok => Ok(Break, Rest(ts))
    case ContinueTok => Ok(Continue, Rest(ts))
    case _ =>
      var (e, r) :- ParseExpr(ts, LOWEST);
      Made(if e.tree.Some? then Some(ExprStmt(e.tree.value)) else None, e.clean, r)
  }

  // After 'while'.
  function ParseWhile(ts: seq<Lex>): (r: Parse<Stmt>)
    ensures |r.rest| <= |ts| && (!r.Fail? ==> |r.rest| < |ts|)
    decreases |ts|, 4
  {
    var (cond, r) :- ParseExpr(ts, LOWEST);
    var (body, r1) :- ParseArm(r);
    Made(if cond.tree.Some? && body.tree.Some? then Some(While(cond.tree.value, body.tree.value)) else None,
      cond.clean && body.clean, r1)
  }

  // A whole file.
  function ParseProgram(ts: seq<Lex>): (r: Parse<seq<Stmt>>)
    decreases |ts|
  {
    if Peek(ts) == Eof then Ok([], ts)
    else
      var (s, r) :- ParseStmt(ts);
      Prepend(Single(s), ParseProgram(r))
  }
}

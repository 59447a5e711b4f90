/**
 The recursive-descent parser (src/parser.c) that fills the arena, against the grammar of module Grammar. It
 takes tokens from the lexer one at a time; a failed parse gives INVALID.
 */
module Parser {
  import opened Syntax
  import opened Grammar
  import G = Grammar
  import opened Arena
  import opened Building
  import Literals

  // A token, with what its characters mean. Numbers are read by the C library.
  datatype Tok = Tok(lex: Lex, start: nat, end: nat)

  predicate WellLexed(text: seq<Byte>, t: Tok) {
    match t.lex
    case Id(x) => t.start <= t.end <= |text| && text[t.start..t.end] == x
    case StrLit(s) => t.start <= t.end <= |text| && Literals.Unescape(text[t.start..t.end]) == s
    case _ => true
  }

  function LexesOf(ts: seq<Tok>): (ls: seq<Lex>)
    ensures |ls| == |ts| && forall i | 0 <= i < |ts| :: ls[i] == ts[i].lex
  {
    if ts == [] then [] else [ts[0].lex] + LexesOf(ts[1..])
  }

  lemma ExprIsStmt(a: Ast, text: seq<Byte>, n: int, e: Expr)
    requires Denotes(a, text, n, e)
    ensures DenotesS(a, text, n, ExprStmt(e))
  {
    hide DenotesNode;
  }

  lemma Known(a: Ast, a': Ast, text: seq<Byte>, n: int, e: Option<Expr>)
    requires Extends(a, a') && (e.Some? ==> Denotes(a, text, n, e.value))
    ensures e.Some? ==> Denotes(a', text, n, e.value)
  {
    hide Denotes;
    if e.Some? {
      Grows(a, a', text, n, e.value);
    }
  }

  function TokenOf(tag: Tag): Lex
    requires tag.NBinary? || tag.NAssign?
  {
    match tag
    case NBinary(op) => OpTok(op)
    case NAssign(op) => AssignTok(op)
  }

  // The rest of the loop of parse_expr.
  function Looped(r: Parse<Expr>, p: nat): Parse<Expr> {
    if r.Fail? then r else G.ParseLoop(Got(r.Tree(), r.Ok?), r.rest, p)
  }

  lemma LoopStep(r: Parse<Expr>, p: nat)
    requires !r.Fail? && Precedence(Peek(r.rest)) > p
    ensures Looped(r, p) == Looped(G.ParseBinary(Got(r.Tree(), r.Ok?), r.rest), p)
  {
    hide G.ParseBinary;
  }

  lemma LoopEnds(r: Parse<Expr>, p: nat)
    requires r.Fail? || Precedence(Peek(r.rest)) <= p
    ensures Looped(r, p) == r
  {
  }

  lemma SameAst(a: Ast)
    ensures Extends(a, a)
  {
  }

  lemma NodesGrow(a: Ast, b: Ast)
    requires Extends(a, b)
    ensures |a.nodes| <= |b.nodes|
  {
  }

  // ----- lists -----

  lemma NoneYet(a: Ast, text: seq<Byte>)
    ensures DenotesAll(a, text, |a.nodes|, [], []) && DenotesAllS(a, text, |a.nodes|, [], [])
        && DenotesNames(a, text, |a.nodes|, [], [])
  {
  }

  lemma NothingBefore<T>(r: Parse<seq<T>>)
    ensures Prepend(Sure([]), r) == r
  {
    if r.Tree().Some? {
      assert [] + r.Tree().value == r.Tree().value;
    }
  }

  // All of them are known, or not.
  function Both<T>(xs: Got<seq<T>>, ys: Got<seq<T>>): Got<seq<T>> {
    Got(if xs.tree.Some? && ys.tree.Some? then Some(xs.tree.value + ys.tree.value) else None, xs.clean && ys.clean)
  }

  lemma PrependTwice<T>(xs: Got<seq<T>>, ys: Got<seq<T>>, r: Parse<seq<T>>)
    ensures Prepend(xs, Prepend(ys, r)) == Prepend(Both(xs, ys), r)
  {
    if xs.tree.Some? && ys.tree.Some? && r.Tree().Some? {
      assert xs.tree.value + (ys.tree.value + r.Tree().value) == xs.tree.value + ys.tree.value + r.Tree().value;
    }
  }

  lemma NothingAfter<T>(xs: Got<seq<T>>, rest: seq<Lex>)
    ensures Prepend(xs, Ok([], rest)) == Made(xs.tree, xs.clean, rest)
  {
    if xs.tree.Some? {
      assert xs.tree.value + [] == xs.tree.value;
    }
  }

  lemma ItemsStep(ts: seq<Lex>, close: Lex)
    requires close != Eof && Peek(ts) != close
    ensures var r := G.ParseExpr(ts, LOWEST);
            G.ParseItems(ts, close) ==
            if r.Fail? then Fail(r.rest)
            else if Peek(SkipComma(r.rest)) == Eof then Fail(SkipComma(r.rest))
            else Prepend(Single(Got(r.Tree(), r.Ok?)), G.ParseItems(SkipComma(r.rest), close))
  {
    hide G.ParseExpr, SkipComma;
  }

  lemma PairsStep(ts: seq<Lex>)
    requires Peek(ts) != CBrace
    ensures var r := G.ParsePair(ts);
            G.ParsePairs(ts) ==
            if r.Fail? then Fail(r.rest)
            else if Peek(SkipComma(r.rest)) == Eof then Fail(SkipComma(r.rest))
            else Prepend(Got(r.Tree(), r.Ok?), G.ParsePairs(SkipComma(r.rest)))
  {
    hide G.ParsePair, SkipComma;
  }

  lemma PairsStop(ts: seq<Lex>)
    requires Peek(ts) == CBrace
    ensures G.ParsePairs(ts) == Ok([], Rest(ts))
  {
  }

  // An item behind the others.
  lemma {:induction false} ItemNext(a: Ast, b: Ast, text: seq<Byte>, ns: seq<int>, es: seq<Expr>, k: int, e: Expr)
    requires DenotesAll(a, text, |a.nodes|, ns, es) && Extends(a, b) && Denotes(b, text, k, e)
    ensures DenotesAll(b, text, |b.nodes|, ns + [k], es + [e])
  {
    hide Denotes, DenotesAll;
    GrowsAll(a, b, text, |a.nodes|, ns, es);
    InRange(b, text, k, e);
    NodesGrow(a, b);
    AllNext(b, text, |a.nodes|, |b.nodes|, ns, es, k, e);
  }

  // A key and its value behind the others.
  lemma {:induction false} PairNext(a: Ast, b: Ast, text: seq<Byte>, ns: seq<int>, es: seq<Expr>, i: int, j: int,
      pair: seq<Expr>)
    requires DenotesAll(a, text, |a.nodes|, ns, es) && Extends(a, b)
    requires |pair| == 2 && Denotes(b, text, i, pair[0]) && Denotes(b, text, j, pair[1])
    ensures DenotesAll(b, text, |b.nodes|, ns + [i, j], es + pair)
  {
    hide Denotes, DenotesAll;
    SameAst(b);
    ItemNext(a, b, text, ns, es, i, pair[0]);
    ItemNext(b, b, text, ns + [i], es + [pair[0]], j, pair[1]);
    assert ns + [i] + [j] == ns + [i, j] && es + [pair[0]] + [pair[1]] == es + pair;
  }

  lemma ItemsStop(ts: seq<Lex>, close: Lex)
    requires close != Eof && Peek(ts) == close
    ensures G.ParseItems(ts, close) == Ok([], Rest(ts))
  {
  }

  // ----- functions and statements -----

  lemma FunctionStep(ts: seq<Lex>, ps: Parse<seq<Name>>, body: Parse<Stmt>)
    requires ps == G.ParseParams(ts) && !ps.Fail?
    requires body == if Peek(ps.rest) == Arrow then Returned(G.ParseExpr(Rest(ps.rest), LOWEST))
                     else Blocked(G.ParseStmts(Rest(ps.rest)))
    ensures var r := G.ParseFunction(ts);
            && ps.Ok? && r.rest == body.rest && (r.Fail? <==> body.Fail?) && (r.Tree().Some? <==> body.Tree().Some?)
            && (r.Tree().Some? ==> r.Tree().value == Fn(Function(ps.value, body.Tree().value)))
  {
    hide G.ParseParams, G.ParseExpr, G.ParseStmts, Returned, Blocked;
  }

  lemma NoFunction(ts: seq<Lex>)
    requires G.ParseParams(ts).Fail?
    ensures G.ParseFunction(ts) == Fail(G.ParseParams(ts).rest)
  {
    hide G.ParseParams;
  }

  lemma ParamsStep(ts: seq<Lex>)
    requires Peek(ts) != Arrow && Peek(ts) != OBrace
    ensures !Peek(ts).Id? ==> G.ParseParams(ts) == Fail(ts)
    ensures Peek(ts).Id? && Peek(SkipComma(Rest(ts))) == Eof ==> G.ParseParams(ts) == Fail(SkipComma(Rest(ts)))
    ensures Peek(ts).Id? && Peek(SkipComma(Rest(ts))) != Eof ==>
              G.ParseParams(ts) == Prepend(Sure([Peek(ts).x]), G.ParseParams(SkipComma(Rest(ts))))
  {
    hide SkipComma;
  }

  lemma ParamsStop(ts: seq<Lex>)
    requires Peek(ts) == Arrow || Peek(ts) == OBrace
    ensures G.ParseParams(ts) == Ok([], ts)
  {
  }

  lemma NameNext(a: Ast, b: Ast, text: seq<Byte>, ns: seq<int>, xs: seq<Name>, k: int, x: Name)
    requires DenotesNames(a, text, |a.nodes|, ns, xs) && Extends(a, b)
    requires 0 <= k < |b.nodes| && b.nodes[k].tag == NIdentifier && IsName(text, b.nodes[k], x)
    ensures DenotesNames(b, text, |b.nodes|, ns + [k], xs + [x])
  {
    hide IsName;
    NodesGrow(a, b);
  }

  lemma NamesLater(a: Ast, b: Ast, text: seq<Byte>, ns: seq<int>, xs: seq<Name>)
    requires DenotesNames(a, text, |a.nodes|, ns, xs) && Extends(a, b)
    ensures DenotesNames(b, text, |b.nodes|, ns, xs)
  {
    hide IsName;
    NodesGrow(a, b);
  }

  lemma KnownS(a: Ast, a': Ast, text: seq<Byte>, n: int, s: Option<Stmt>)
    requires Extends(a, a') && (s.Some? ==> DenotesS(a, text, n, s.value))
    ensures s.Some? ==> DenotesS(a', text, n, s.value)
  {
    hide DenotesS;
    if s.Some? {
      GrowsS(a, a', text, n, s.value);
    }
  }

  lemma StmtsStep(ts: seq<Lex>)
    requires Peek(ts) != CBrace
    ensures var r := G.ParseStmt(ts);
            G.ParseStmts(ts) ==
            if r.Fail? then Fail(r.rest)
            else if Peek(r.rest) == Eof then Fail(r.rest)
            else Prepend(Single(Got(r.Tree(), r.Ok?)), G.ParseStmts(r.rest))
  {
    hide G.ParseStmt;
  }

  lemma StmtsStop(ts: seq<Lex>)
    requires Peek(ts) == CBrace
    ensures G.ParseStmts(ts) == Ok([], Rest(ts))
  {
  }

  lemma StmtNext(a: Ast, b: Ast, text: seq<Byte>, ns: seq<int>, ss: seq<Stmt>, k: int, s: Stmt)
    requires DenotesAllS(a, text, |a.nodes|, ns, ss) && Extends(a, b) && DenotesS(b, text, k, s)
    ensures DenotesAllS(b, text, |b.nodes|, ns + [k], ss + [s])
  {
    hide DenotesS, DenotesAllS;
    GrowsAllS(a, b, text, |a.nodes|, ns, ss);
    InRangeS(b, text, k, s);
    NodesGrow(a, b);
    AllSNext(b, text, |a.nodes|, |b.nodes|, ns, ss, k, s);
  }

  lemma ProgramStep(ts: seq<Lex>)
    requires Peek(ts) != Eof
    ensures var r := G.ParseStmt(ts);
            G.ParseProgram(ts) ==
            if r.Fail? then Fail(r.rest) else Prepend(Single(Got(r.Tree(), r.Ok?)), G.ParseProgram(r.rest))
  {
    hide G.ParseStmt;
  }

  lemma ProgramStop(ts: seq<Lex>)
    requires Peek(ts) == Eof
    ensures G.ParseProgram(ts) == Ok([], ts)
  {
  }

  lemma ConditionalStep(ts: seq<Lex>)
    ensures var c := G.ParseExpr(ts, LOWEST);
            var t := G.ParseArm(c.rest);
            var f := G.ParseElse(t.rest);
            var r := G.ParseConditional(ts);
            && (c.Fail? ==> r == Fail(c.rest))
            && (!c.Fail? && t.Fail? ==> r == Fail(t.rest))
            && (!c.Fail? && !t.Fail? ==> r.rest == f.rest && (r.Fail? <==> f.Fail?))
            && (r.Tree().Some? ==>
                  && c.Tree().Some? && t.Tree().Some? && f.Tree().Some?
                  && r.Tree().value == If(c.Tree().value, t.Tree().value, f.Tree().value))
  {
    hide G.ParseExpr, G.ParseArm, G.ParseElse;
  }

  lemma StmtStep(ts: seq<Lex>)
    ensures Peek(ts) == OBrace ==> G.ParseStmt(ts) == Blocked(G.ParseStmts(Rest(ts)))
    ensures Peek(ts) == WhileTok ==> G.ParseStmt(ts) == G.ParseWhile(Rest(ts))
    ensures Peek(ts) == IfTok ==> G.ParseStmt(ts) == G.ParseConditional(Rest(ts))
    ensures Peek(ts) == ReturnTok ==> G.ParseStmt(ts) == Returned(G.ParseExpr(Rest(ts), LOWEST))
    ensures Peek(ts) == BreakTok ==> G.ParseStmt(ts) == Ok(Break, Rest(ts))
    ensures Peek(ts) == ContinueTok ==> G.ParseStmt(ts) == Ok(Continue, Rest(ts))
  {
    hide G.ParseExpr, G.ParseStmts, G.ParseWhile, G.ParseConditional, Returned, Blocked;
  }

  lemma ExprStmtStep(ts: seq<Lex>)
    requires var t := Peek(ts);
             !t.OBrace? && !t.WhileTok? && !t.IfTok? && !t.ReturnTok? && !t.BreakTok? && !t.ContinueTok?
    ensures var e, r := G.ParseExpr(ts, LOWEST), G.ParseStmt(ts);
            && r.rest == e.rest && (r.Fail? <==> e.Fail?) && (r.Tree().Some? <==> e.Tree().Some?)
            && (r.Tree().Some? ==> r.Tree().value == ExprStmt(e.Tree().value))
  {
    hide G.ParseExpr, G.ParseStmts, G.ParseWhile, G.ParseConditional, Returned, Blocked;
  }

  lemma NoBound(a: Ast, text: seq<Byte>)
    ensures DenotesBound(a, text, |a.nodes|, INVALID, None)
  {
  }

  lemma IsBound(a: Ast, text: seq<Byte>, n: int, e: Expr)
    requires Denotes(a, text, n, e)
    ensures DenotesBound(a, text, |a.nodes|, n, Some(e))
  {
    InRange(a, text, n, e);
    hide Denotes;
  }

  lemma BoundGrows(a: Ast, b: Ast, text: seq<Byte>, k: int, s: Option<Expr>)
    requires Extends(a, b) && DenotesBound(a, text, |a.nodes|, k, s)
    ensures DenotesBound(b, text, |b.nodes|, k, s)
  {
    hide Denotes;
    GrowsBound(a, b, text, |a.nodes|, k, s);
  }

  // A failed bound has the mark of one that is absent.
  lemma BoundKnown(a: Ast, text: seq<Byte>, r: Parse<Expr>, n: int)
    requires (r.Fail? ==> n == INVALID) && (r.Tree().Some? ==> Denotes(a, text, n, r.Tree().value))
    ensures var b := G.Bound(r); b.tree.Some? ==> DenotesBound(a, text, |a.nodes|, n, b.tree.value)
  {
    hide Denotes;
    if r.Fail? {
      NoBound(a, text);
    } else if r.Tree().Some? {
      IsBound(a, text, n, r.Tree().value);
    }
  }

  class Parser {
    const text: seq<Byte>
    var ahead: seq<Tok> // the tokens to come
    var ast: Ast

    constructor (text: seq<Byte>, tokens: seq<Tok>)
      requires forall t | t in tokens :: WellLexed(text, t)
      ensures Valid() && this.text == text && ahead == tokens && ast == Ast([], [], [])
    {
      this.text, ahead, ast := text, tokens, Ast([], [], []);
    }

    ghost predicate Valid()
      reads this
    {
      forall t | t in ahead :: WellLexed(text, t)
    }

    ghost function Left(): seq<Lex>
      reads this
    {
      LexesOf(ahead)
    }

    // parser_peek.
    function Next(): (t: Lex)
      reads this
      ensures t == Peek(LexesOf(ahead))
    {
      if ahead == [] then Eof else ahead[0].lex
    }

    // Nothing was taken back.
    ghost predicate Grew(a0: Ast, count: nat)
      reads this
    {
      Valid() && Extends(a0, ast) && |ahead| <= count
    }

    // The node is what the grammar gives, and the tokens left are the grammar's: INVALID if it fails, otherwise a
    // node, which stands for the tree if there is one.
    ghost predicate Gives(r: Parse<Expr>, n: int)
      reads this
    {
      && r.rest == Left() && (r.Fail? <==> n == INVALID)
      && (!r.Fail? ==> 0 <= n < |ast.nodes|)
      && (r.Tree().Some? ==> Denotes(ast, text, n, r.Tree().value))
    }

    ghost predicate GivesS(r: Parse<Stmt>, n: int)
      reads this
    {
      && r.rest == Left() && (r.Fail? <==> n == INVALID)
      && (!r.Fail? ==> 0 <= n < |ast.nodes|)
      && (r.Tree().Some? ==> DenotesS(ast, text, n, r.Tree().value))
    }

    ghost predicate GivesAll(r: Parse<seq<Expr>>, ok: bool, ns: seq<int>)
      reads this
    {
      && r.rest == Left() && (r.Fail? <==> !ok)
      && (r.Tree().Some? ==> DenotesAll(ast, text, |ast.nodes|, ns, r.Tree().value))
    }

    // parser_advance.
    method Advance() returns (t: Tok)
      requires Valid() && ahead != []
      modifies this`ahead
      ensures Valid() && t == old(ahead)[0] && t.lex == old(Next()) && WellLexed(text, t)
      ensures ahead == old(ahead)[1..] && Left() == Rest(old(Left()))
    {
      t := ahead[0];
      ahead := ahead[1..];
    }

    // The comma that may follow an item, and the test for the end of the file.
    method SkipSeparator() returns (more: bool)
      requires Valid()
      modifies this`ahead
      ensures Valid() && |ahead| <= |old(ahead)| && Left() == SkipComma(old(Left())) && more == (Next() != Eof)
    {
      hide LexesOf;
      if Next() == Comma {
        var comma := Advance();
      }
      more := Next() != Eof;
    }

    // ast_push.
    method Push(tag: Tag, lhs: int, rhs: int) returns (n: int)
      modifies this`ast
      ensures ast == old(ast).Push(tag, lhs, rhs) && n == |old(ast).nodes| && Extends(old(ast), ast)
    {
      n := |ast.nodes|;
      PushExtends(ast, tag, lhs, rhs);
      ast := ast.Push(tag, lhs, rhs);
    }

    // ----- expressions -----

    method ParseExpr(p: nat) returns (lhs: int)
      requires Valid()
      modifies this
      ensures Grew(old(ast), |old(ahead)|) && (lhs != INVALID ==> |ahead| < |old(ahead)|)
      ensures Gives(G.ParseExpr(old(Left()), p), lhs)
      decreases |ahead|, 3
    {
      hide Denotes, Extends, G.ParseUnary, G.ParseBinary, G.ParseLoop, LexesOf;
      ghost var whole := G.ParseExpr(Left(), p);
      ghost var now := G.ParseUnary(Left());
      lhs := ParseUnary();
      while Precedence(Next()) > p
        invariant Grew(old(ast), |old(ahead)|) && (lhs != INVALID ==> |ahead| < |old(ahead)|)
        invariant Gives(now, lhs) && whole == Looped(now, p)
        decreases |ahead|
      {
        if lhs == INVALID {
          LoopEnds(now, p);
          return;
        }
        ghost var a, e := ast, Got(now.Tree(), now.Ok?);
        LoopStep(now, p);
        now := G.ParseBinary(e, Left());
        lhs := ParseBinary(lhs, e);
        Longer(old(ast), a, ast);
      }
      LoopEnds(now, p);
    }

    // ----- the ends of the loop of parse_expr -----

    method ParseBinary(lhs: int, ghost e: Got<Expr>) returns (n: int)
      requires Valid() && Precedence(Next()) > LOWEST && (e.tree.Some? ==> Denotes(ast, text, lhs, e.tree.value))
      modifies this
      ensures Grew(old(ast), |old(ahead)|) && |ahead| < |old(ahead)| && Gives(G.ParseBinary(e, old(Left())), n)
      decreases |ahead|, 1
    {
      hide Denotes, Extends, G.ParseBinary, LexesOf;
      match Next()
      case AssignTok(op) => n := ParseInfix(lhs, NAssign(op), ASSIGN, e);
      case OpTok(op) => n := ParseInfix(lhs, NBinary(op), OpPrecedence(op), e);
      case OParen => n := ParseCall(lhs, e);
      case Dot => n := ParseMember(lhs, e);
      case OBracket => n := ParseSubscript(lhs, e);
    }

    // parse_assign and parse_binary_op.
    method ParseInfix(lhs: int, tag: Tag, q: nat, ghost e: Got<Expr>) returns (n: int)
      requires Valid() && (tag.NBinary? || tag.NAssign?) && Next() == TokenOf(tag) && q == Precedence(Next())
      requires e.tree.Some? ==> Denotes(ast, text, lhs, e.tree.value)
      modifies this
      ensures Grew(old(ast), |old(ahead)|) && |ahead| < |old(ahead)| && Gives(G.ParseBinary(e, old(Left())), n)
      decreases |ahead|, 0
    {
      hide Denotes, Extends, G.ParseExpr, LexesOf;
      ghost var start := Left();
      var token := Advance();
      ghost var r := G.ParseExpr(Left(), q);
      var value := ParseExpr(q);
      if value == INVALID {
        return INVALID;
      }
      ghost var a := ast;
      Known(old(ast), a, text, lhs, e.tree);
      n := Push(tag, lhs, value);
      Longer(old(ast), a, ast);
      if e.tree.Some? && r.Tree().Some? {
        BuildPair(a, text, tag, lhs, value, e.tree.value, r.Tree().value);
      }
    }

    method ParseMember(target: int, ghost e: Got<Expr>) returns (n: int)
      requires Valid() && Next() == Dot && (e.tree.Some? ==> Denotes(ast, text, target, e.tree.value))
      modifies this
      ensures Grew(old(ast), |old(ahead)|) && |ahead| < |old(ahead)| && Gives(G.ParseBinary(e, old(Left())), n)
      decreases |ahead|, 0
    {
      hide Denotes, Extends, LexesOf;
      SameAst(ast);
      var token := Advance();
      if !Next().Id? {
        return INVALID;
      }
      ghost var a := ast;
      var name := Advance();
      var identifier := Push(NIdentifier, name.start, name.end);
      n := Push(NMember, target, identifier);
      Longer(a, a.Push(NIdentifier, name.start, name.end), ast);
      if e.tree.Some? {
        BuildMember(a, text, target, e.tree.value, name.start, name.end);
      }
    }

    method ParseCall(callee: int, ghost e: Got<Expr>) returns (n: int)
      requires Valid() && Next() == OParen && (e.tree.Some? ==> Denotes(ast, text, callee, e.tree.value))
      modifies this
      ensures Grew(old(ast), |old(ahead)|) && |ahead| < |old(ahead)| && Gives(G.ParseBinary(e, old(Left())), n)
      decreases |ahead|, 0
    {
      hide Denotes, DenotesAll, Extends, G.ParseItems, LexesOf;
      var token := Advance();
      ghost var r := G.ParseItems(Left(), CParen);
      var ok, arguments := ParseItems(CParen);
      if !ok {
        return INVALID;
      }
      ghost var a := ast;
      Known(old(ast), a, text, callee, e.tree);
      if arguments == [] {
        n := Push(NCall, callee, INVALID);
      } else {
        var start := |ast.extra|;
        CountedExtends(ast, arguments);
        ast := ast.Expand([|arguments|] + arguments);
        ghost var b := ast;
        n := Push(NCall, callee, start);
        Longer(a, b, ast);
      }
      Longer(old(ast), a, ast);
      if e.tree.Some? && r.Tree().Some? {
        BuildCall(a, text, callee, e.tree.value, arguments, r.Tree().value);
      }
    }

    // The loops of parse_call and parse_array.
    method ParseItems(close: Lex) returns (ok: bool, ns: seq<int>)
      requires Valid() && close in {CParen, CBracket}
      modifies this
      ensures Grew(old(ast), |old(ahead)|) && (ok ==> |ahead| < |old(ahead)|)
      ensures GivesAll(G.ParseItems(old(Left()), close), ok, ns)
      decreases |ahead|, 4
    {
      hide Denotes, DenotesAll, Extends, G.ParseExpr, G.ParseItems, LexesOf, SkipComma;
      ghost var whole := G.ParseItems(Left(), close);
      ghost var es := Sure([]);
      ns := [];
      SameAst(ast);
      NoneYet(ast, text);
      NothingBefore(whole);
      while Next() != close
        invariant Grew(old(ast), |old(ahead)|)
        invariant es.tree.Some? ==> DenotesAll(ast, text, |ast.nodes|, ns, es.tree.value)
        invariant whole == Prepend(es, G.ParseItems(Left(), close))
        decreases |ahead|
      {
        ghost var a, ts := ast, Left();
        ghost var r := G.ParseExpr(ts, LOWEST);
        var item := ParseExpr(LOWEST);
        Longer(old(ast), a, ast);
        ItemsStep(ts, close);
        if item == INVALID {
          return false, [];
        }
        var more := SkipSeparator();
        if !more {
          return false, [];
        }
        if es.tree.Some? && r.Tree().Some? {
          ItemNext(a, ast, text, ns, es.tree.value, item, r.Tree().value);
        }
        PrependTwice(es, Single(Got(r.Tree(), r.Ok?)), G.ParseItems(Left(), close));
        es := Both(es, Single(Got(r.Tree(), r.Ok?)));
        ns := ns + [item];
      }
      ItemsStop(Left(), close);
      NothingAfter(es, Rest(Left()));
      ok := true;
      var token := Advance();
    }

    method ParseSubscript(target: int, ghost e: Got<Expr>) returns (n: int)
      requires Valid() && Next() == OBracket && (e.tree.Some? ==> Denotes(ast, text, target, e.tree.value))
      modifies this
      ensures Grew(old(ast), |old(ahead)|) && |ahead| < |old(ahead)| && Gives(G.ParseBinary(e, old(Left())), n)
      // a subscript that is accepted without an index has a node that leads nowhere
      ensures var ts := Rest(old(Left()));
              var index := G.ParseExpr(ts, LOWEST);
              n != INVALID && Peek(ts) != Colon && index.Fail? && Peek(index.rest) != Colon ==>
                  ast.nodes[n] == Node(NSubscript, target, INVALID)
      decreases |ahead|, 0
    {
      hide Denotes, DenotesBound, Extends, G.ParseExpr, G.ParseSliceEnd, G.Closed, G.Bound, G.Front, LexesOf;
      assert G.ParseBinary(e, Left()) == G.ParseSubscript(e, Rest(Left()));
      var token := Advance();
      if Next() == Colon {
        NoBound(ast, text);
        n := ParseSliceEnd(target, INVALID, e, Sure(None));
      } else {
        ghost var r := G.ParseExpr(Left(), LOWEST);
        var start := ParseExpr(LOWEST);
        ghost var a := ast;
        Known(old(ast), a, text, target, e.tree);
        if Next() == Colon {
          BoundKnown(a, text, r, start);
          n := ParseSliceEnd(target, start, e, G.Bound(r));
        } else {
          n := Push(NSubscript, target, start);
          if e.tree.Some? && r.Tree().Some? {
            BuildPair(a, text, NSubscript, target, start, e.tree.value, r.Tree().value);
          }
          n := Close(n, G.Indexed(e, r));
        }
        Longer(old(ast), a, ast);
      }
    }

    // From the ':' of a slice on.
    method ParseSliceEnd(target: int, start: int, ghost e: Got<Expr>, ghost from: Got<Option<Expr>>) returns (n: int)
      requires Valid() && Next() == Colon && (e.tree.Some? ==> Denotes(ast, text, target, e.tree.value))
      requires from.tree.Some? ==> DenotesBound(ast, text, |ast.nodes|, start, from.tree.value)
      modifies this
      ensures Grew(old(ast), |old(ahead)|) && |ahead| < |old(ahead)|
      ensures Gives(G.ParseSliceEnd(G.Front(e, from), Rest(old(Left()))), n)
      decreases |ahead|, 0
    {
      hide Denotes, DenotesBound, Extends, G.ParseExpr, G.Closed, G.Bound, LexesOf;
      var token := Advance();
      var end := INVALID;
      ghost var to: Got<Option<Expr>> := Sure(None);
      ghost var a, r := ast, G.ParseExpr(Left(), LOWEST);
      SameAst(ast);
      if Next() == CBracket {
        NoBound(ast, text);
      } else {
        end := ParseExpr(LOWEST);
        to := G.Bound(r);
        BoundKnown(ast, text, r, end);
      }
      ghost var b := ast;
      Known(a, b, text, target, e.tree);
      if from.tree.Some? {
        BoundGrows(a, b, text, start, from.tree.value);
      }
      var indices := Push(NIndices, start, end);
      Longer(a, b, ast);
      ghost var c := ast;
      n := Push(NSlice, target, indices);
      Longer(a, c, ast);
      if e.tree.Some? && from.tree.Some? && to.tree.Some? {
        BuildSlice(b, text, target, e.tree.value, start, from.tree.value, end, to.tree.value);
      }
      n := Close(n, G.SliceTo(G.Front(e, from), to));
    }

    // The ']' of a subscript or slice.
    method Close(n: int, ghost g: Got<Expr>) returns (m: int)
      requires Valid() && 0 <= n < |ast.nodes| && (g.tree.Some? ==> Denotes(ast, text, n, g.tree.value))
      modifies this`ahead
      ensures Valid() && |ahead| <= |old(ahead)| && (m != INVALID ==> m == n)
      ensures Gives(G.Closed(g, old(Left()), CBracket), m)
    {
      hide Denotes, LexesOf;
      if Next() != CBracket {
        return INVALID;
      }
      var token := Advance();
      m := n;
    }
  
    // ----- prefix expressions -----

    method ParseUnary() returns (n: int)
      requires Valid()
      modifies this
      ensures Grew(old(ast), |old(ahead)|) && (n != INVALID ==> |ahead| < |old(ahead)|)
      ensures Gives(G.ParseUnary(old(Left())), n)
      decreases |ahead|, 2
    {
      hide Denotes, Extends, G.ParseExpr, G.ParseItems, G.ParsePairs, G.ParseFunction, LexesOf;
      SameAst(ast);
      match Next()
      case Id(_) => n := ParseIdentifier();
      case StrLit(_) => n := ParseString();
      case IntLit(_) => n := ParseInt();
      case FloatLit(_) => n := ParseFloat();
      case OParen => n := ParseParentheses();
      case FnTok => n := ParseFunction();
      case OBracket => n := ParseArray();
      case OBrace => n := ParseMap();
      case OpTok(Sub) => n := ParseUnaryOp(Neg);
      case Bang => n := ParseUnaryOp(Not);
      case _ => n := INVALID;
    }

    method ParseIdentifier() returns (n: int)
      requires Valid() && Next().Id?
      modifies this
      ensures Grew(old(ast), |old(ahead)|) && |ahead| < |old(ahead)|
      ensures n == |old(ast).nodes| && |ast.nodes| == n + 1 && ast.nodes[n].tag == NIdentifier
          && IsName(text, ast.nodes[n], old(Next()).x)
      ensures Denotes(ast, text, n, Ident(old(Next()).x)) && Left() == Rest(old(Left()))
    {
      var token := Advance();
      BuildName(ast, text, token.start, token.end);
      n := Push(NIdentifier, token.start, token.end);
    }

    method ParseString() returns (n: int)
      requires Valid() && Next().StrLit?
      modifies this
      ensures Grew(old(ast), |old(ahead)|) && |ahead| < |old(ahead)|
      ensures Gives(G.ParseUnary(old(Left())), n)
    {
      hide Denotes;
      var token := Advance();
      var unescaped := Literals.ReadEscapes(text[token.start..token.end]);
      if unescaped.None? {
        return INVALID;
      }
      var start := |ast.strings|;
      BuildString(ast, text, unescaped.value);
      ast := ast.(strings := ast.strings + unescaped.value);
      n := Push(NString, start, |ast.strings| - start);
    }

    method ParseInt() returns (n: int)
      requires Valid() && Next().IntLit?
      modifies this
      ensures Grew(old(ast), |old(ahead)|) && |ahead| < |old(ahead)|
      ensures Gives(G.ParseUnary(old(Left())), n)
    {
      hide Denotes;
      var token := Advance();
      if token.lex.n.None? {
        return INVALID;
      }
      var v := token.lex.n.value;
      BuildInt(ast, text, v);
      n := Push(NInt, v / WORD, v % WORD);
    }

    method ParseFloat() returns (n: int)
      requires Valid() && Next().FloatLit?
      modifies this
      ensures Grew(old(ast), |old(ahead)|) && |ahead| < |old(ahead)|
      ensures Gives(G.ParseUnary(old(Left())), n)
    {
      hide Denotes;
      var token := Advance();
      if token.lex.d.None? {
        return INVALID;
      }
      var v := token.lex.d.value.bits;
      BuildFloat(ast, text, token.lex.d.value);
      n := Push(NFloat, v / WORD, v % WORD);
    }

    method ParseParentheses() returns (n: int)
      requires Valid() && Next() == OParen
      modifies this
      ensures Grew(old(ast), |old(ahead)|) && |ahead| < |old(ahead)| && Gives(G.ParseUnary(old(Left())), n)
      decreases |ahead|, 0
    {
      hide Denotes, Extends, G.ParseExpr, LexesOf;
      var token := Advance();
      n := ParseExpr(LOWEST);
      if n == INVALID {
        return;
      }
      if Next() != CParen {
        return INVALID;
      }
      var close := Advance();
    }

    method ParseUnaryOp(op: UnaryOp) returns (n: int)
      requires Valid() && Next() == (if op == Neg then OpTok(Sub) else Bang)
      modifies this
      ensures Grew(old(ast), |old(ahead)|) && |ahead| < |old(ahead)| && Gives(G.ParseUnary(old(Left())), n)
      decreases |ahead|, 0
    {
      hide Denotes, Extends, G.ParseExpr, LexesOf;
      var token := Advance();
      ghost var r := G.ParseExpr(Left(), PREFIX);
      var value := ParseExpr(PREFIX);
      if value == INVALID {
        return INVALID;
      }
      ghost var a := ast;
      n := Push(NUnary(op), 0, value);
      Longer(old(ast), a, ast);
      if r.Tree().Some? {
        BuildUnary(a, text, op, value, r.Tree().value);
      }
    }

    method ParseArray() returns (n: int)
      requires Valid() && Next() == OBracket
      modifies this
      ensures Grew(old(ast), |old(ahead)|) && |ahead| < |old(ahead)| && Gives(G.ParseUnary(old(Left())), n)
      decreases |ahead|, 0
    {
      hide Denotes, DenotesAll, Extends, G.ParseItems, LexesOf;
      var token := Advance();
      ghost var r := G.ParseItems(Left(), CBracket);
      var ok, values := ParseItems(CBracket);
      if !ok {
        return INVALID;
      }
      ghost var a := ast;
      var start := |ast.extra|;
      ExpandExtends(ast, values);
      ast := ast.Expand(values);
      Longer(old(ast), a, ast);
      ghost var b := ast;
      n := Push(NArray, start, |values|);
      Longer(old(ast), b, ast);
      if r.Tree().Some? {
        BuildArray(a, text, values, r.Tree().value);
      }
    }

    method ParseMap() returns (n: int)
      requires Valid() && Next() == OBrace
      modifies this
      ensures Grew(old(ast), |old(ahead)|) && |ahead| < |old(ahead)| && Gives(G.ParseUnary(old(Left())), n)
      decreases |ahead|, 0
    {
      hide Denotes, DenotesAll, Extends, G.ParsePairs, LexesOf;
      var token := Advance();
      ghost var r := G.ParsePairs(Left());
      var ok, pairs := ParsePairs();
      if !ok {
        return INVALID;
      }
      ghost var a := ast;
      var start := |ast.extra|;
      ExpandExtends(ast, pairs);
      ast := ast.Expand(pairs);
      Longer(old(ast), a, ast);
      ghost var b := ast;
      n := Push(NMap, start, |pairs| / 2);
      Longer(old(ast), b, ast);
      if r.Tree().Some? {
        BuildMap(a, text, pairs, r.Tree().value);
      }
    }

    // The loop of parse_map.
    method ParsePairs() returns (ok: bool, ns: seq<int>)
      requires Valid()
      modifies this
      ensures Grew(old(ast), |old(ahead)|) && (ok ==> |ahead| < |old(ahead)| && |ns| % 2 == 0)
      ensures GivesAll(G.ParsePairs(old(Left())), ok, ns)
      decreases |ahead|, 5
    {
      hide Denotes, DenotesAll, Extends, G.ParsePair, G.ParsePairs, LexesOf, SkipComma, Prepend;
      ghost var whole := G.ParsePairs(Left());
      ghost var es := Sure([]);
      ns := [];
      SameAst(ast);
      NoneYet(ast, text);
      NothingBefore(whole);
      while Next() != CBrace
        invariant Grew(old(ast), |old(ahead)|) && |ns| % 2 == 0
        invariant es.tree.Some? ==> DenotesAll(ast, text, |ast.nodes|, ns, es.tree.value)
        invariant whole == Prepend(es, G.ParsePairs(Left()))
        decreases |ahead|
      {
        ghost var a, ts := ast, Left();
        ghost var r := G.ParsePair(ts);
        var good, key, value := ParsePair();
        Longer(old(ast), a, ast);
        PairsStep(ts);
        if !good {
          return false, [];
        }
        var more := SkipSeparator();
        if !more {
          return false, [];
        }
        if es.tree.Some? && r.Tree().Some? {
          PairNext(a, ast, text, ns, es.tree.value, key, value, r.Tree().value);
          assert DenotesAll(ast, text, |ast.nodes|, ns + [key, value], es.tree.value + r.Tree().value);
        }
        PrependTwice(es, Got(r.Tree(), r.Ok?), G.ParsePairs(Left()));
        es := Both(es, Got(r.Tree(), r.Ok?));
        ns := ns + [key, value];
      }
      PairsStop(Left());
      NothingAfter(es, Rest(Left()));
      ok := true;
      var token := Advance();
    }

    // A key, ':' and a value.
    method ParsePair() returns (ok: bool, key: int, value: int)
      requires Valid()
      modifies this
      ensures Grew(old(ast), |old(ahead)|) && (ok ==> |ahead| < |old(ahead)|)
      ensures var r := G.ParsePair(old(Left()));
              && r.rest == Left() && (r.Fail? <==> !ok)
              && (r.Tree().Some? ==>
                    Denotes(ast, text, key, r.Tree().value[0]) && Denotes(ast, text, value, r.Tree().value[1]))
      decreases |ahead|, 4
    {
      hide Denotes, Extends, G.ParseExpr, LexesOf;
      ghost var r := G.ParseExpr(Left(), LOWEST);
      ok, value := false, INVALID;
      key := ParseExpr(LOWEST);
      if key == INVALID {
        return;
      }
      if Next() != Colon {
        return;
      }
      ghost var a := ast;
      var colon := Advance();
      value := ParseExpr(LOWEST);
      Longer(old(ast), a, ast);
      Known(a, ast, text, key, r.Tree());
      ok := value != INVALID;
    }

    // ----- functions -----

    // parse_function.
    method ParseFunction() returns (n: int)
      requires Valid() && Next() == FnTok
      modifies this
      ensures Grew(old(ast), |old(ahead)|) && |ahead| < |old(ahead)| && Gives(G.ParseFunction(Rest(old(Left()))), n)
      decreases |ahead|, 1
    {
      hide Denotes, DenotesS, DenotesNames, Extends, G.ParseExpr, G.ParseStmts, G.ParseParams, G.ParseFunction,
          LexesOf, Returned, Blocked;
      var token := Advance();
      ghost var ts := Left();
      ghost var ps := G.ParseParams(ts);
      var ok, parameters := ParseParams();
      if !ok {
        NoFunction(ts);
        return INVALID;
      }
      ghost var a := ast;
      ghost var body := if Next() == Arrow then Returned(G.ParseExpr(Rest(Left()), LOWEST))
                        else Blocked(G.ParseStmts(Rest(Left())));
      FunctionStep(ts, ps, body);
      var block: int;
      if Next() == Arrow {
        block := ParseResult();
      } else {
        block := ParseBlock();
      }
      Longer(old(ast), a, ast);
      if block == INVALID {
        return INVALID;
      }
      ghost var b := ast;
      n := PushFunction(parameters, block);
      Longer(old(ast), b, ast);
      if body.Tree().Some? {
        NamesLater(a, b, text, parameters, ps.value);
        BuildFunction(b, text, parameters, ps.value, block, body.Tree().value);
      }
    }

    // The body of an arrow function.
    method ParseResult() returns (n: int)
      requires Valid() && Next() == Arrow
      modifies this
      ensures Grew(old(ast), |old(ahead)|) && |ahead| < |old(ahead)|
      ensures GivesS(Returned(G.ParseExpr(Rest(old(Left())), LOWEST)), n)
      decreases |ahead|, 4
    {
      hide Denotes, DenotesS, Extends, G.ParseExpr, LexesOf;
      var arrow := Advance();
      ghost var r := G.ParseExpr(Left(), LOWEST);
      var value := ParseExpr(LOWEST);
      if value == INVALID {
        return INVALID;
      }
      ghost var a := ast;
      n := Push(NReturn, 0, value);
      Longer(old(ast), a, ast);
      if r.Tree().Some? {
        BuildReturn(a, text, value, r.Tree().value);
      }
    }

    // The node of a function.
    method PushFunction(parameters: seq<int>, block: int) returns (n: int)
      modifies this`ast
      ensures n == |old(ast).nodes| && Extends(old(ast), ast)
      ensures ast == WithList(old(ast), parameters).Push(NFunction, ListIndex(old(ast), parameters), block)
    {
      if parameters == [] {
        n := Push(NFunction, INVALID, block);
      } else {
        var start := |ast.extra|;
        CountedExtends(ast, parameters);
        ast := ast.Expand([|parameters|] + parameters);
        n := Push(NFunction, start, block);
      }
    }

    // The loop of parse_function.
    method ParseParams() returns (ok: bool, ns: seq<int>)
      requires Valid()
      modifies this
      ensures Grew(old(ast), |old(ahead)|) && (ok ==> Next() == Arrow || Next() == OBrace)
      ensures var r := G.ParseParams(old(Left()));
              && r.rest == Left() && (r.Fail? <==> !ok)
              && (r.Tree().Some? ==> DenotesNames(ast, text, |ast.nodes|, ns, r.Tree().value))
    {
      hide Denotes, DenotesNames, Extends, G.ParseParams, LexesOf, SkipComma;
      ghost var whole := G.ParseParams(Left());
      ghost var xs := [];
      ns := [];
      SameAst(ast);
      NoneYet(ast, text);
      NothingBefore(whole);
      while Next() != Arrow && Next() != OBrace
        invariant Grew(old(ast), |old(ahead)|)
        invariant DenotesNames(ast, text, |ast.nodes|, ns, xs) && whole == Prepend(Sure(xs), G.ParseParams(Left()))
        decreases |ahead|
      {
        ghost var a := ast;
        ParamsStep(Left());
        if !Next().Id? {
          return false, [];
        }
        ghost var x := Next().x;
        var parameter := ParseIdentifier();
        Longer(old(ast), a, ast);
        var more := SkipSeparator();
        if !more {
          return false, [];
        }
        NameNext(a, ast, text, ns, xs, parameter, x);
        PrependTwice(Sure(xs), Sure([x]), G.ParseParams(Left()));
        xs := xs + [x];
        ns := ns + [parameter];
      }
      ParamsStop(Left());
      NothingAfter(Sure(xs), Left());
      ok := true;
    }

    // ----- statements -----

    // parse_block.
    method ParseBlock() returns (n: int)
      requires Valid() && Next() == OBrace
      modifies this
      ensures Grew(old(ast), |old(ahead)|) && |ahead| < |old(ahead)|
          && GivesS(Blocked(G.ParseStmts(Rest(old(Left())))), n)
      decreases |ahead|, 4
    {
      hide DenotesS, DenotesAllS, Extends, G.ParseStmt, G.ParseStmts, LexesOf;
      var token := Advance();
      ghost var whole := G.ParseStmts(Left());
      ghost var ss := Sure([]);
      var stmts := [];
      SameAst(ast);
      NoneYet(ast, text);
      NothingBefore(whole);
      while Next() != CBrace
        invariant Grew(old(ast), |old(ahead)| - 1)
        invariant ss.tree.Some? ==> DenotesAllS(ast, text, |ast.nodes|, stmts, ss.tree.value)
        invariant whole == Prepend(ss, G.ParseStmts(Left()))
        decreases |ahead|
      {
        ghost var a, ts := ast, Left();
        ghost var r := G.ParseStmt(ts);
        var stmt := ParseStmt();
        Longer(old(ast), a, ast);
        StmtsStep(ts);
        if stmt == INVALID {
          return INVALID;
        }
        if Next() == Eof {
          return INVALID;
        }
        if ss.tree.Some? && r.Tree().Some? {
          StmtNext(a, ast, text, stmts, ss.tree.value, stmt, r.Tree().value);
        }
        PrependTwice(ss, Single(Got(r.Tree(), r.Ok?)), G.ParseStmts(Left()));
        ss := Both(ss, Single(Got(r.Tree(), r.Ok?)));
        stmts := stmts + [stmt];
      }
      StmtsStop(Left());
      NothingAfter(ss, Rest(Left()));
      var close := Advance();
      ghost var b := ast;
      n := PushBlock(stmts, ss);
      Longer(old(ast), b, ast);
    }

    // The node of a block.
    method PushBlock(stmts: seq<int>, ghost ss: Got<seq<Stmt>>) returns (n: int)
      requires ss.tree.Some? ==> DenotesAllS(ast, text, |ast.nodes|, stmts, ss.tree.value)
      modifies this`ast
      ensures Extends(old(ast), ast) && 0 <= n < |ast.nodes|
          && (ss.tree.Some? ==> DenotesS(ast, text, n, Block(ss.tree.value)))
    {
      hide DenotesS, DenotesAllS;
      ghost var a := ast;
      var start := |ast.extra|;
      ExpandExtends(ast, stmts);
      ast := ast.Expand(stmts);
      n := Push(NBlock, start, |stmts|);
      if ss.tree.Some? {
        BuildBlock(a, text, stmts, ss.tree.value);
      }
    }

    // The body of a loop or of a conditional.
    method ParseArm() returns (n: int)
      requires Valid()
      modifies this
      ensures Grew(old(ast), |old(ahead)|) && (n != INVALID ==> |ahead| < |old(ahead)|)
          && GivesS(G.ParseArm(old(Left())), n)
      decreases |ahead|, 6
    {
      hide DenotesS, Extends, G.ParseStmt, G.ParseStmts, LexesOf;
      SameAst(ast);
      if Next() == Arrow {
        var arrow := Advance();
        n := ParseStmt();
      } else if Next() == OBrace {
        n := ParseBlock();
      } else {
        n := INVALID;
      }
    }

    // parse_while_loop.
    method ParseWhile() returns (n: int)
      requires Valid() && Next() == WhileTok
      modifies this
      ensures Grew(old(ast), |old(ahead)|) && |ahead| < |old(ahead)| && GivesS(G.ParseWhile(Rest(old(Left()))), n)
      decreases |ahead|, 4
    {
      hide Denotes, DenotesS, Extends, G.ParseExpr, G.ParseArm, LexesOf;
      var token := Advance();
      ghost var c := G.ParseExpr(Left(), LOWEST);
      var condition := ParseExpr(LOWEST);
      if condition == INVALID {
        return INVALID;
      }
      ghost var a, s := ast, G.ParseArm(Left());
      var block := ParseArm();
      Longer(old(ast), a, ast);
      if block == INVALID {
        return INVALID;
      }
      ghost var b := ast;
      Known(a, b, text, condition, c.Tree());
      n := Push(NWhile, condition, block);
      Longer(old(ast), b, ast);
      if c.Tree().Some? && s.Tree().Some? {
        BuildWhile(b, text, condition, c.Tree().value, block, s.Tree().value);
      }
    }

    method ParseReturn() returns (n: int)
      requires Valid() && Next() == ReturnTok
      modifies this
      ensures Grew(old(ast), |old(ahead)|) && |ahead| < |old(ahead)|
          && GivesS(Returned(G.ParseExpr(Rest(old(Left())), LOWEST)), n)
      decreases |ahead|, 4
    {
      hide Denotes, DenotesS, Extends, G.ParseExpr, LexesOf;
      var token := Advance();
      ghost var r := G.ParseExpr(Left(), LOWEST);
      var value := ParseExpr(LOWEST);
      if value == INVALID {
        return INVALID;
      }
      ghost var a := ast;
      n := Push(NReturn, 0, value);
      Longer(old(ast), a, ast);
      if r.Tree().Some? {
        BuildReturn(a, text, value, r.Tree().value);
      }
    }

    method ParseConditional() returns (n: int)
      requires Valid() && Next() == IfTok
      modifies this
      ensures Grew(old(ast), |old(ahead)|) && |ahead| < |old(ahead)| && GivesS(G.ParseConditional(Rest(old(Left()))), n)
      decreases |ahead|, 4
    {
      hide Denotes, DenotesS, DenotesElse, Extends, G.ParseExpr, G.ParseArm, G.ParseElse, G.ParseConditional, LexesOf;
      var token := Advance();
      ghost var ts := Left();
      ghost var c := G.ParseExpr(ts, LOWEST);
      ConditionalStep(ts);
      var condition := ParseExpr(LOWEST);
      if condition == INVALID {
        return INVALID;
      }
      ghost var a, t := ast, G.ParseArm(Left());
      var trueCase := ParseArm();
      Longer(old(ast), a, ast);
      if trueCase == INVALID {
        return INVALID;
      }
      ghost var b, f := ast, G.ParseElse(Left());
      var ok, falseCase := ParseElse();
      Longer(old(ast), b, ast);
      if !ok {
        return INVALID;
      }
      ghost var d := ast;
      Longer(a, b, d);
      Known(a, d, text, condition, c.Tree());
      KnownS(b, d, text, trueCase, t.Tree());
      ExpandExtends(ast, [trueCase, falseCase]);
      var rhs := |ast.extra|;
      ast := ast.Expand([trueCase, falseCase]);
      Longer(old(ast), d, ast);
      ghost var g := ast;
      n := Push(NIf, condition, rhs);
      Longer(old(ast), g, ast);
      if c.Tree().Some? && t.Tree().Some? && f.Tree().Some? {
        BuildIf(d, text, condition, c.Tree().value, trueCase, t.Tree().value, falseCase, f.Tree().value);
      }
    }

    // The part from 'else' on, if there is one.
    method ParseElse() returns (ok: bool, n: int)
      requires Valid()
      modifies this
      ensures Grew(old(ast), |old(ahead)|)
      ensures var r := G.ParseElse(old(Left()));
              && r.rest == Left() && (r.Fail? <==> !ok)
                  && (r.Tree().Some? ==> DenotesElse(ast, text, n, r.Tree().value))
      decreases |ahead|, 4
    {
      hide DenotesS, Extends, G.ParseArm, G.ParseConditional, LexesOf;
      SameAst(ast);
      if Next() != ElseTok {
        return true, INVALID;
      }
      var token := Advance();
      if Next() == IfTok {
        n := ParseConditional();
      } else {
        n := ParseArm();
      }
      ok := n != INVALID;
    }

    method ParseStmt() returns (n: int)
      requires Valid()
      modifies this
      ensures Grew(old(ast), |old(ahead)|) && (n != INVALID ==> |ahead| < |old(ahead)|)
          && GivesS(G.ParseStmt(old(Left())), n)
      decreases |ahead|, 5
    {
      hide Denotes, DenotesS, Extends, G.ParseExpr, G.ParseStmts, G.ParseWhile, G.ParseConditional, G.ParseStmt,
          Returned,
          Blocked, LexesOf;
      StmtStep(Left());
      var next := Next();
      if next == OBrace {
        n := ParseBlock();
      } else if next == WhileTok {
        n := ParseWhile();
      } else if next == IfTok {
        n := ParseConditional();
      } else if next == ReturnTok {
        n := ParseReturn();
      } else if next == BreakTok {
        n := ParseJump(NBreak);
      } else if next == ContinueTok {
        n := ParseJump(NContinue);
      } else {
        ExprStmtStep(Left());
        ghost var r := G.ParseExpr(Left(), LOWEST);
        n := ParseExpr(LOWEST);
        if r.Tree().Some? {
          ExprIsStmt(ast, text, n, r.Tree().value);
        }
      }
    }

    method ParseJump(tag: Tag) returns (n: int)
      requires Valid() && (tag == NBreak || tag == NContinue)
          && Next() == (if tag == NBreak then BreakTok else ContinueTok)
      modifies this
      ensures Grew(old(ast), |old(ahead)|) && |ahead| < |old(ahead)|
      ensures GivesS(Ok(if tag == NBreak then Break else Continue, Rest(old(Left()))), n)
    {
      hide DenotesS, Extends, LexesOf;
      var token := Advance();
      BuildJump(ast, text, tag);
      n := Push(tag, 0, 0);
    }

    /** parse: the whole file as a block. */
    method Parse() returns (n: int)
      requires Valid()
      modifies this
      ensures Grew(old(ast), |old(ahead)|) && GivesS(Blocked(G.ParseProgram(old(Left()))), n)
    {
      hide DenotesS, DenotesAllS, Extends, G.ParseStmt, G.ParseProgram, LexesOf;
      ghost var whole := G.ParseProgram(Left());
      ghost var ss := Sure([]);
      var stmts := [];
      SameAst(ast);
      NoneYet(ast, text);
      NothingBefore(whole);
      while Next() != Eof
        invariant Grew(old(ast), |old(ahead)|)
        invariant ss.tree.Some? ==> DenotesAllS(ast, text, |ast.nodes|, stmts, ss.tree.value)
        invariant whole == Prepend(ss, G.ParseProgram(Left()))
        decreases |ahead|
      {
        ghost var a, ts := ast, Left();
        ghost var r := G.ParseStmt(ts);
        var stmt := ParseStmt();
        Longer(old(ast), a, ast);
        ProgramStep(ts);
        if stmt == INVALID {
          return INVALID;
        }
        if ss.tree.Some? && r.Tree().Some? {
          StmtNext(a, ast, text, stmts, ss.tree.value, stmt, r.Tree().value);
        }
        PrependTwice(ss, Single(Got(r.Tree(), r.Ok?)), G.ParseProgram(Left()));
        ss := Both(ss, Single(Got(r.Tree(), r.Ok?)));
        stmts := stmts + [stmt];
      }
      ProgramStop(Left());
      NothingAfter(ss, Left());
      ghost var b := ast;
      n := PushBlock(stmts, ss);
      Longer(old(ast), b, ast);
    }
  }
}

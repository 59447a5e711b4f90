/**
 The domain of the correctness theorem is not empty: a program with every kind of statement and most kinds of
 expressions is in it.

   f = fn n {
     i = 0
     while i < n {
       if i == 3 => break else => i = i + 1
       if !n => continue
     }
     return [i, "a"]
   }
   m = {"k": f(5)[0]}
   m.k += 2 * 3 - -3
   return f(5)[:1]
 */
module Sample {
  import opened Syntax
  import opened Arithmetic
  import opened Values
  import opened Assembly
  import opened Codegen
  import opened Domain
  import opened Operands
  import opened Correctness
  import opened Formats

  const F: Name := [102]
  const I: Name := [105]
  const K: Name := [107]
  const M: Name := [109]
  const N: Name := [110]

  const STEP: Stmt := ExprStmt(Assign(None, Ident(I), Binary(Add, Ident(I), Expr.Int(1))))

  const LEAVE: Stmt := If(Binary(Eql, Ident(I), Expr.Int(3)), Break, Some(STEP))

  const REPEAT: Stmt := If(Unary(Not, Ident(N)), Continue, None)

  const LOOP: Stmt := While(Binary(Lt, Ident(I), Ident(N)), Block([LEAVE, REPEAT]))

  const BODY: seq<Stmt> :=
    [ExprStmt(Assign(None, Ident(I), Expr.Int(0))), LOOP, Return(Array([Ident(I), Str([97])]))]

  const FUNCTION: Function := Function([N], Block(BODY))

  const CALL: Expr := Call(Ident(F), [Expr.Int(5)])

  const ELEMENT: Expr := Subscript(CALL, Expr.Int(0))

  const SUM: Expr := Binary(Sub, Binary(Mul, Expr.Int(2), Expr.Int(3)), Unary(Neg, Expr.Int(3)))

  const PROGRAM: seq<Stmt> := [
    ExprStmt(Assign(None, Ident(F), Fn(FUNCTION))),
    ExprStmt(Assign(None, Ident(M), MapLit([Str(K), ELEMENT]))),
    ExprStmt(Assign(Some(Add), Member(Ident(M), K), SUM)),
    Return(Slice(CALL, None, Some(Expr.Int(1))))
  ]

  const INSIDE: Scope := Scope(false, [N, I])

  // A body, one statement after another.
  lemma BodyNext(sc: Scope, s: Stmt, rest: seq<Stmt>, loop: Option<nat>)
    ensures FitsBody(sc, [s] + rest, loop) <==> FitsS(sc, s, loop) && FitsBody(ScopeS(sc, s), rest, loop)
    ensures ScopeBody(sc, [s] + rest) == ScopeBody(ScopeS(sc, s), rest)
    ensures FitsBody(sc, [], loop) && ScopeBody(sc, []) == sc
  {
    hide FitsS, ScopeS;
    assert ([s] + rest)[1..] == rest;
  }

  lemma {:induction false} StepFits()
    ensures FitsS(INSIDE, STEP, Some(2)) && ScopeS(INSIDE, STEP) == INSIDE
  {
  }

  lemma {:induction false} LeaveFits()
    ensures FitsS(INSIDE, LEAVE, Some(2)) && ScopeS(INSIDE, LEAVE) == INSIDE
  {
    StepFits();
  }

  lemma {:induction false} RepeatFits()
    ensures FitsS(INSIDE, REPEAT, Some(2)) && ScopeS(INSIDE, REPEAT) == INSIDE
  {
  }

  lemma {:induction false} LoopFits()
    ensures FitsS(INSIDE, LOOP, None) && ScopeS(INSIDE, LOOP) == INSIDE
  {
    hide FitsS;
    LeaveFits();
    RepeatFits();
    BodyNext(INSIDE, LEAVE, [REPEAT], Some(2));
    BodyNext(INSIDE, REPEAT, [], Some(2));
    assert [LEAVE, REPEAT] == [LEAVE] + [REPEAT] && [REPEAT] == [REPEAT] + [];
    LoopParts();
  }

  lemma {:induction false} LoopParts()
    requires FitsBody(INSIDE, [LEAVE, REPEAT], Some(2))
    ensures FitsS(INSIDE, LOOP, None) && ScopeS(INSIDE, LOOP) == INSIDE
  {
    hide FitsBody;
  }

  lemma {:induction false} FunctionFits()
    ensures FitsS(Scope(false, FUNCTION.params), FUNCTION.code, None)
  {
    hide FitsS;
    var sc, first, last := Scope(false, [N]), BODY[0], BODY[2];
    FirstFits();
    LoopFits();
    LastFits();
    BodyNext(sc, first, [LOOP, last], None);
    BodyNext(INSIDE, LOOP, [last], None);
    BodyNext(INSIDE, last, [], None);
    assert BODY == [first] + [LOOP, last] && [LOOP, last] == [LOOP] + [last] && [last] == [last] + [];
    BlockFits(sc, BODY);
  }

  lemma FirstFits()
    ensures FitsS(Scope(false, [N]), BODY[0], None) && ScopeS(Scope(false, [N]), BODY[0]) == INSIDE
  {
  }

  lemma LastFits()
    ensures FitsS(INSIDE, BODY[2], None)
  {
    FitsMore(INSIDE, Ident(I), [Str([97])], false);
    FitsOnly(INSIDE, Str([97]), true);
    assert [Ident(I)] + [Str([97])] == [Ident(I), Str([97])];
  }

  lemma BlockFits(sc: Scope, body: seq<Stmt>)
    requires FitsBody(sc, body, None)
    ensures FitsS(sc, Block(body), None)
  {
    hide FitsBody;
  }

  const TOP: Scope := Scope(true, [])

  lemma {:induction false} FunctionDefined()
    ensures FitsS(TOP, PROGRAM[0], None) && ScopeS(TOP, PROGRAM[0]) == TOP
  {
    assert ScopeE(TOP, Fn(FUNCTION)) == TOP;
  }

  lemma {:induction false} CallFits()
    ensures FitsE(TOP, CALL, true) && ScopeE(TOP, CALL) == TOP
  {
    FitsOnly(TOP, Expr.Int(5), true);
    CodeMore(INTEGER_ARITHMETIC, TOP, Expr.Int(5), []);
    assert [Expr.Int(5)] + [] == [Expr.Int(5)];
  }

  lemma {:induction false} ElementFits()
    ensures FitsE(TOP, ELEMENT, true) && ScopeE(TOP, ELEMENT) == TOP
  {
    CallFits();
  }

  lemma {:induction false} MapFits()
    ensures FitsS(TOP, PROGRAM[1], None) && ScopeS(TOP, PROGRAM[1]) == TOP
  {
    ElementFits();
    FitsMore(TOP, Str(K), [ELEMENT], false);
    FitsOnly(TOP, ELEMENT, true);
    CodeMore(INTEGER_ARITHMETIC, TOP, Str(K), [ELEMENT]);
    CodeMore(INTEGER_ARITHMETIC, TOP, ELEMENT, []);
    assert [Str(K)] + [ELEMENT] == [Str(K), ELEMENT] && [ELEMENT] + [] == [ELEMENT];
    hide FitsAll;
    assert FitsAll(TOP, [Str(K), ELEMENT], false) && ScopeAll(TOP, [Str(K), ELEMENT]) == TOP;
    MapStored([Str(K), ELEMENT]);
  }

  lemma {:induction false} MapStored(items: seq<Expr>)
    requires FitsAll(TOP, items, false) && ScopeAll(TOP, items) == TOP && |items| == 2
    ensures var s := ExprStmt(Assign(None, Ident(M), MapLit(items))); FitsS(TOP, s, None) && ScopeS(TOP, s) == TOP
  {
    hide FitsAll, ScopeAll;
    assert FitsE(TOP, MapLit(items), false) && ScopeE(TOP, MapLit(items)) == TOP;
  }

  lemma {:induction false} MapUpdated()
    ensures FitsS(TOP, PROGRAM[2], None) && ScopeS(TOP, PROGRAM[2]) == TOP
  {
    SumFits();
    StoreFits(SUM);
  }

  lemma {:induction false} SumFits()
    ensures FitsE(TOP, SUM, false) && ScopeE(TOP, SUM) == TOP
  {
  }

  lemma {:induction false} StoreFits(value: Expr)
    requires FitsE(TOP, value, false) && ScopeE(TOP, value) == TOP
    ensures var s := ExprStmt(Assign(Some(Add), Member(Ident(M), K), value));
            FitsS(TOP, s, None) && ScopeS(TOP, s) == TOP
  {
    var e := Assign(Some(Add), Member(Ident(M), K), value);
    assert FitsE(TOP, Ident(M), true) && ScopeE(TOP, Ident(M)) == TOP;
    assert FitsE(TOP, e, false) && ScopeE(TOP, e) == TOP;
  }

  lemma {:induction false} ResultFits()
    ensures FitsS(TOP, PROGRAM[3], None) && ScopeS(TOP, PROGRAM[3]) == TOP
  {
    CallFits();
    assert FitsE(TOP, Slice(CALL, None, Some(Expr.Int(1))), false);
  }

  lemma {:induction false} ProgramFits()
    ensures FitsS(TOP, Block(PROGRAM), None)
  {
    hide FitsS;
    FunctionDefined();
    MapFits();
    MapUpdated();
    ResultFits();
    BodyNext(TOP, PROGRAM[3], [], None);
    BodyNext(TOP, PROGRAM[2], PROGRAM[3..], None);
    BodyNext(TOP, PROGRAM[1], PROGRAM[2..], None);
    BodyNext(TOP, PROGRAM[0], PROGRAM[1..], None);
    assert PROGRAM[3..] == [PROGRAM[3]] + [] && PROGRAM[2..] == [PROGRAM[2]] + PROGRAM[3..];
    assert PROGRAM[1..] == [PROGRAM[1]] + PROGRAM[2..] && PROGRAM == [PROGRAM[0]] + PROGRAM[1..];
    BlockFits(TOP, PROGRAM);
  }

  // ----- the size of its code -----

  lemma {:induction false} BodySize(ar: Arith, sc: Scope, s: Stmt, rest: seq<Stmt>)
    ensures |CodeBody(ar, sc, [s] + rest)| == |CodeS(ar, sc, s)| + |CodeBody(ar, ScopeS(sc, s), rest)|
    ensures |CodeBody(ar, sc, [])| == 0
  {
    hide CodeS, ScopeS;
    assert ([s] + rest)[1..] == rest;
  }

  lemma {:induction false} BlockSize(ar: Arith, sc: Scope, body: seq<Stmt>)
    ensures |CodeS(ar, sc, Block(body))| == |CodeBody(ar, sc, body)| + |ScopeBody(sc, body).names| - |sc.names|
  {
    hide CodeBody;
  }

  lemma {:induction false} StepSize(ar: Arith)
    ensures |CodeS(ar, INSIDE, STEP)| == 5
  {
  }

  lemma {:induction false} LeaveSize(ar: Arith)
    ensures |CodeS(ar, INSIDE, LEAVE)| == 11
  {
    StepSize(ar);
  }

  lemma {:induction false} RepeatSize(ar: Arith)
    ensures |CodeS(ar, INSIDE, REPEAT)| == 5
  {
  }

  lemma {:induction false} LoopSize(ar: Arith)
    ensures |CodeS(ar, INSIDE, LOOP)| == 21
  {
    hide CodeS;
    LeaveSize(ar);
    RepeatSize(ar);
    LeaveFits();
    RepeatFits();
    BodySize(ar, INSIDE, LEAVE, [REPEAT]);
    BodySize(ar, INSIDE, REPEAT, []);
    BodyNext(INSIDE, LEAVE, [REPEAT], Some(2));
    BodyNext(INSIDE, REPEAT, [], Some(2));
    assert [LEAVE, REPEAT] == [LEAVE] + [REPEAT] && [REPEAT] == [REPEAT] + [];
    BlockSize(ar, INSIDE, [LEAVE, REPEAT]);
    TestSize(ar, Block([LEAVE, REPEAT]));
  }

  lemma {:induction false} TestSize(ar: Arith, body: Stmt)
    requires |CodeS(ar, INSIDE, body)| == 16
    ensures |CodeS(ar, INSIDE, While(Binary(Lt, Ident(I), Ident(N)), body))| == 21
  {
  }

  lemma {:induction false} FirstSize(ar: Arith)
    ensures |CodeS(ar, Scope(false, [N]), BODY[0])| == 3
  {
  }

  lemma {:induction false} LastSize(ar: Arith)
    ensures |CodeS(ar, INSIDE, BODY[2])| == 4 && ScopeS(INSIDE, BODY[2]) == INSIDE
  {
    CodeMore(ar, INSIDE, Ident(I), [Str([97])]);
    CodeMore(ar, INSIDE, Str([97]), []);
    assert [Ident(I)] + [Str([97])] == [Ident(I), Str([97])] && [Str([97])] + [] == [Str([97])];
  }

  lemma {:induction false} FunctionSize(ar: Arith)
    ensures |CodeS(ar, Scope(false, [N]), Block(BODY))| == 29
  {
    hide CodeS, FitsS;
    var sc, first, last := Scope(false, [N]), BODY[0], BODY[2];
    FirstFits();
    LoopFits();
    FirstSize(ar);
    LoopSize(ar);
    LastSize(ar);
    BodySize(ar, sc, first, [LOOP, last]);
    BodySize(ar, INSIDE, LOOP, [last]);
    BodySize(ar, INSIDE, last, []);
    BodyNext(sc, first, [LOOP, last], None);
    BodyNext(INSIDE, LOOP, [last], None);
    BodyNext(INSIDE, last, [], None);
    assert BODY == [first] + [LOOP, last] && [LOOP, last] == [LOOP] + [last] && [last] == [last] + [];
    BlockSize(ar, sc, BODY);
  }

  lemma {:induction false} MapSize(ar: Arith)
    ensures |CodeS(ar, TOP, PROGRAM[1])| == 9
  {
    ElementSize(ar);
    ElementFits();
    CodeMore(ar, TOP, Str(K), [ELEMENT]);
    CodeMore(ar, TOP, ELEMENT, []);
    assert [Str(K)] + [ELEMENT] == [Str(K), ELEMENT] && [ELEMENT] + [] == [ELEMENT];
    hide CodeAll;
    assert |CodeAll(ar, TOP, [Str(K), ELEMENT])| == 6;
    MapCode(ar, [Str(K), ELEMENT]);
  }

  lemma {:induction false} MapCode(ar: Arith, items: seq<Expr>)
    requires |CodeAll(ar, TOP, items)| == 6
    ensures |CodeS(ar, TOP, ExprStmt(Assign(None, Ident(M), MapLit(items))))| == 9
  {
    hide CodeAll;
    assert |CodeE(ar, TOP, MapLit(items))| == 7;
  }

  lemma {:induction false} CallSize(ar: Arith)
    ensures |CodeE(ar, TOP, CALL)| == 3
  {
    CodeMore(ar, TOP, Expr.Int(5), []);
    assert [Expr.Int(5)] + [] == [Expr.Int(5)];
  }

  lemma {:induction false} ElementSize(ar: Arith)
    ensures |CodeE(ar, TOP, ELEMENT)| == 5
  {
    CallSize(ar);
  }

  lemma {:induction false} DefinitionSize(ar: Arith)
    ensures |CodeS(ar, TOP, PROGRAM[0])| == 3
  {
    assert |CodeE(ar, TOP, Fn(FUNCTION))| == 1;
    assert |CodeE(ar, TOP, Assign(None, Ident(F), Fn(FUNCTION)))| == 2;
  }

  lemma {:induction false} UpdateSize(ar: Arith)
    ensures |CodeS(ar, TOP, PROGRAM[2])| == 7
  {
    hide CodeE;
    SumSize(ar);
    StoreSize(ar, SUM);
  }

  lemma {:induction false} SumSize(ar: Arith)
    ensures |CodeE(ar, TOP, SUM)| == 3 && ScopeE(TOP, SUM) == TOP
  {
    assert |CodeE(ar, TOP, Binary(Mul, Expr.Int(2), Expr.Int(3)))| == 1;
    assert |CodeE(ar, TOP, Unary(Neg, Expr.Int(3)))| == 1;
  }

  lemma {:induction false} StoreSize(ar: Arith, value: Expr)
    requires |CodeE(ar, TOP, value)| == 3 && ScopeE(TOP, value) == TOP
    ensures |CodeS(ar, TOP, ExprStmt(Assign(Some(Add), Member(Ident(M), K), value)))| == 7
  {
    assert |CodeE(ar, TOP, Ident(M))| == 1;
  }

  lemma {:induction false} ResultSize(ar: Arith)
    ensures |CodeS(ar, TOP, PROGRAM[3])| == 6
  {
    CallSize(ar);
    assert |CodeE(ar, TOP, Slice(CALL, None, Some(Expr.Int(1))))| == 5;
  }

  lemma {:induction false} ProgramSize(ar: Arith)
    ensures |CodeS(ar, TOP, Block(PROGRAM))| == 25
  {
    hide CodeS, FitsS;
    FunctionDefined();
    MapFits();
    MapUpdated();
    ResultFits();
    MapSize(ar);
    DefinitionSize(ar);
    UpdateSize(ar);
    ResultSize(ar);
    BodySize(ar, TOP, PROGRAM[3], []);
    BodySize(ar, TOP, PROGRAM[2], PROGRAM[3..]);
    BodySize(ar, TOP, PROGRAM[1], PROGRAM[2..]);
    BodySize(ar, TOP, PROGRAM[0], PROGRAM[1..]);
    BodyNext(TOP, PROGRAM[3], [], None);
    BodyNext(TOP, PROGRAM[2], PROGRAM[3..], None);
    BodyNext(TOP, PROGRAM[1], PROGRAM[2..], None);
    BodyNext(TOP, PROGRAM[0], PROGRAM[1..], None);
    assert PROGRAM[3..] == [PROGRAM[3]] + [] && PROGRAM[2..] == [PROGRAM[2]] + PROGRAM[3..];
    assert PROGRAM[1..] == [PROGRAM[1]] + PROGRAM[2..] && PROGRAM == [PROGRAM[0]] + PROGRAM[1..];
    BlockSize(ar, TOP, PROGRAM);
  }

  /** The program and its function are in the domain. */
  lemma {:induction false} InDomain(ar: Arith)
    requires forall x, y :: ar.eq(x, y) ==> x == y
    ensures FitsProgram(ar, PROGRAM) && FitsFunction(ar, FUNCTION)
  {
    hide FitsS, CodeS, Faithful;
    FunctionFits();
    ProgramFits();
    FunctionSize(ar);
    ProgramSize(ar);
    ShortFaithful(ar, TOP, Block(PROGRAM));
    ShortFaithful(ar, Scope(false, [N]), Block(BODY));
  }
}

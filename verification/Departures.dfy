/**
 Where the compiled program departs from its source, and why the domain of the correctness theorems is what
 it is: each lemma gives the exact condition or an input on which the two differ.
 */
module Departures {
  import opened Syntax
  import opened Arithmetic
  import opened Values
  import opened Primitives
  import opened Bytecode
  import opened Assembly
  import opened Codegen
  import opened Domain
  import opened Vm
  import opened Semantics
  import opened Correctness
  import opened Compiler
  import opened Jumps
  import opened Peephole
  import opened Bisimulation
  import opened Pipeline
  import opened Traces
  import G = Grammar
  import Pratt
  import Recognition

  // ----- chained assignment -----

  /** Two assignments in a row are read as an assignment to an assignment, which the compiler rejects. */
  lemma {:induction false} ChainedAssignment(x: seq<G.Lex>, y: seq<G.Lex>, z: seq<G.Lex>, a: Expr, b: Expr, c: Expr)
    requires Pratt.Spells(x, a, G.ASSIGN, false) && Pratt.Spells(y, b, G.ASSIGN + 1, false)
        && Pratt.Spells(z, c, G.ASSIGN + 1, true)
    ensures var r := G.ParseExpr(x + ([G.AssignTok(None)] + y) + ([G.AssignTok(None)] + z), G.LOWEST);
            r == G.Parse.Ok(Assign(None, Assign(None, a, b), c), []) && !AcceptsE(r.value)
  {
    hide Pratt.Spells, G.ParseExpr;
    Recognition.GroupsLeft(x, y, z, a, b, c, G.AssignTok(None), G.AssignTok(None));
  }

  // ----- errors inside the brackets of a subscript -----

  // What parse_expr leaves, whether it fails or not.
  function After(ts: seq<G.Lex>): seq<G.Lex> {
    G.ParseExpr(ts, G.LOWEST).rest
  }

  // After the ':' of a slice: ']' comes next, at once or after parse_expr.
  predicate EndAccepted(ts: seq<G.Lex>) {
    G.Peek(ts) == G.CBracket || G.Peek(After(ts)) == G.CBracket
  }

  // After '['.
  predicate SubscriptAccepted(ts: seq<G.Lex>) {
    if G.Peek(ts) == G.Colon then EndAccepted(G.Rest(ts))
    else G.Peek(After(ts)) == G.CBracket || (G.Peek(After(ts)) == G.Colon && EndAccepted(G.Rest(After(ts))))
  }

  // There is an error at an expression, or inside brackets of it.
  predicate Wrong(ts: seq<G.Lex>) {
    !G.ParseExpr(ts, G.LOWEST).Ok?
  }

  predicate EndWrong(ts: seq<G.Lex>) {
    G.Peek(ts) != G.CBracket && Wrong(ts)
  }

  // One of the expressions inside the brackets is wrong.
  predicate InsideWrong(ts: seq<G.Lex>) {
    if G.Peek(ts) == G.Colon then EndWrong(G.Rest(ts))
    else Wrong(ts) || (G.Peek(After(ts)) == G.Colon && EndWrong(G.Rest(After(ts))))
  }

  // An expression is accepted, but has no tree.
  predicate Treeless(ts: seq<G.Lex>) {
    !G.ParseExpr(ts, G.LOWEST).Fail? && G.ParseExpr(ts, G.LOWEST).Tree().None?
  }

  predicate EndTreeless(ts: seq<G.Lex>) {
    G.Peek(ts) != G.CBracket && Treeless(ts)
  }

  // The index fails, or an expression inside the brackets is accepted without a tree.
  predicate IndexMissing(ts: seq<G.Lex>) {
    if G.Peek(ts) == G.Colon then EndTreeless(G.Rest(ts))
    else
      || Treeless(ts)
      || (if G.Peek(After(ts)) == G.Colon then EndTreeless(G.Rest(After(ts))) else G.ParseExpr(ts, G.LOWEST).Fail?)
  }

  /** A subscript or slice is rejected if and only if ']', or ':' and an accepted end, does not come next where
      parse_expr stopped inside the brackets, even if it stopped there with an error. Accepted, it is without an error
      if and only if its expressions are; and it has a tree if and only if no index failed and each expression that
      was accepted has a tree. */
  lemma MissingIndex(target: Expr, ts: seq<G.Lex>)
    ensures var r := G.ParseSubscript(G.Sure(target), ts);
            && (r.Fail? <==> !SubscriptAccepted(ts))
            && (r.Ok? <==> SubscriptAccepted(ts) && !InsideWrong(ts))
            && (r.Tree().Some? <==> SubscriptAccepted(ts) && !IndexMissing(ts))
  {
    hide G.ParseExpr;
  }

  // Accepted with an error, but otherwise the same.
  predicate SameButWrong(r: G.Parse<Expr>, clean: G.Parse<Expr>) {
    !r.Ok? && r.Tree() == clean.Tree() && r.rest == clean.rest && (r.Fail? <==> clean.Fail?)
  }

  /** A bound of a slice that fails is read as one that is absent: `a[` and a failed start before `:` is parsed as `a[:`
      would be, and a failed end before `]` as no end. */
  lemma FailedBound(target: G.Got<Expr>, front: G.Got<(Expr, Option<Expr>)>, ts: seq<G.Lex>)
    requires G.ParseExpr(ts, G.LOWEST).Fail?
    ensures G.Peek(ts) != G.Colon && G.Peek(After(ts)) == G.Colon ==>
              SameButWrong(G.ParseSubscript(target, ts), G.ParseSubscript(target, After(ts)))
    ensures G.Peek(ts) != G.CBracket && G.Peek(After(ts)) == G.CBracket ==>
              SameButWrong(G.ParseSliceEnd(front, ts), G.ParseSliceEnd(front, After(ts)))
  {
    hide G.ParseExpr;
  }

  lemma NoStart(ts: seq<G.Lex>, p: nat)
    requires !Pratt.Starts(G.Peek(ts))
    ensures G.ParseExpr(ts, p) == G.Parse<Expr>.Fail(ts)
  {
  }

  /** So with no expression to start with inside the brackets, a subscript is accepted if and only if they are empty. */
  lemma NothingInside(target: G.Got<Expr>, ts: seq<G.Lex>)
    requires !Pratt.Starts(G.Peek(ts)) && G.Peek(ts) != G.Colon
    ensures G.ParseSubscript(target, ts) ==
            if G.Peek(ts) == G.CBracket then G.Parse.Broken(None, G.Rest(ts)) else G.Parse.Fail(ts)
  {
    hide G.ParseExpr, Pratt.Starts;
    NoStart(ts, G.LOWEST);
  }

  // a[ and what is inside.
  function Subscripting(a: Name, inner: seq<G.Lex>): seq<G.Lex> {
    [G.Id(a), G.OBracket] + inner
  }

  /** `a[]` and `a[-]` are accepted without a tree, `a[:-]` with the tree of `a[:]`; `a[+]` is rejected. */
  lemma {:induction false} EmptySubscript(a: Name)
    ensures G.ParseExpr(Subscripting(a, [G.CBracket]), G.LOWEST) == G.Parse<Expr>.Broken(None, [])
    ensures G.ParseExpr(Subscripting(a, [G.OpTok(Sub), G.CBracket]), G.LOWEST) == G.Parse<Expr>.Broken(None, [])
    ensures G.ParseExpr(Subscripting(a, [G.Colon, G.OpTok(Sub), G.CBracket]), G.LOWEST) ==
            G.Parse.Broken(Some(Slice(Ident(a), None, None)), [])
    ensures G.ParseExpr(Subscripting(a, [G.OpTok(Add), G.CBracket]), G.LOWEST) ==
            G.Parse<Expr>.Fail([G.OpTok(Add), G.CBracket])
  {
    hide G.ParseExpr, G.ParseSubscript, Subscripting;
    var none, plus := [G.CBracket], [G.OpTok(Add), G.CBracket];
    NothingInside(G.Sure(Ident(a)), none);
    InnerIs(a, none, G.Parse.Broken(None, []));
    NothingInside(G.Sure(Ident(a)), plus);
    InnerIs(a, plus, G.Parse.Fail(plus));
    MinusInside(a, [G.OpTok(Sub), G.CBracket]);
  }

  lemma {:induction false} MinusInside(a: Name, minus: seq<G.Lex>)
    requires minus == [G.OpTok(Sub), G.CBracket]
    ensures G.ParseExpr(Subscripting(a, minus), G.LOWEST) == G.Parse<Expr>.Broken(None, [])
    ensures G.ParseExpr(Subscripting(a, [G.Colon, G.OpTok(Sub), G.CBracket]), G.LOWEST) ==
            G.Parse.Broken(Some(Slice(Ident(a), None, None)), [])
  {
    var none, slice := [G.CBracket], [G.Colon] + minus;
    MinusFails(minus, none);
    hide G.ParseExpr, Subscripting;
    assert G.Rest(none) == [] && G.Rest(slice) == minus && slice == [G.Colon, G.OpTok(Sub), G.CBracket];
    InnerIs(a, minus, G.Parse.Broken(None, []));
    InnerIs(a, slice, G.Parse.Broken(Some(Slice(Ident(a), None, None)), []));
  }

  lemma MinusFails(ts: seq<G.Lex>, rest: seq<G.Lex>)
    requires rest == [G.CBracket] && ts == [G.OpTok(Sub)] + rest
    ensures G.ParseExpr(ts, G.LOWEST) == G.Parse<Expr>.Fail(rest)
  {
    NoStart(rest, G.PREFIX);
    assert G.Rest(ts) == rest && G.ParsePrefix(Neg, rest) == G.Parse<Expr>.Fail(rest);
  }

  // A name and a subscript at the end of the tokens.
  lemma {:induction false} InnerIs(a: Name, inner: seq<G.Lex>, r: G.Parse<Expr>)
    requires G.ParseSubscript(G.Sure(Ident(a)), inner) == r && (r.Fail? || (r.Broken? && r.rest == []))
    ensures G.ParseExpr(Subscripting(a, inner), G.LOWEST) == r
  {
    hide G.ParseUnary, G.ParseSubscript;
    var ts := Subscripting(a, inner);
    assert G.Rest(ts) == [G.OBracket] + inner && G.Rest([G.OBracket] + inner) == inner;
    assert G.ParseBinary(G.Sure(Ident(a)), G.Rest(ts)) == r;
    FirstIsName(a, ts);
    assert r.Broken? ==> G.ParseLoop(G.Got(r.tree, false), [], G.LOWEST) == r;
  }

  lemma FirstIsName(a: Name, ts: seq<G.Lex>)
    requires G.Peek(ts) == G.Id(a)
    ensures G.ParseUnary(ts) == G.Parse.Ok(Ident(a), G.Rest(ts))
  {
  }

  // ----- a remainder by the literal zero -----

  /** An operation on two integer literals is compiled to no code exactly when it is a remainder by zero. */
  lemma LiteralsVanish(ar: Arith, sc: Scope, op: BinaryOp, a: Bits64, b: Bits64)
    ensures CodeE(ar, sc, Binary(op, Int(a), Int(b))) == [] <==> op.Mod? && b == 0
  {
    hide FoldBinary;
  }

  /** The program `a % 0` has a meaning: it computes a remainder and ends. Its code drops a value that was
      never pushed. */
  lemma RemainderByZero(w: World, a: Bits64, globals: map<Name, Value>, heap: Heap)
    ensures var program := [ExprStmt(Binary(Mod, Int(a), Int(0)))];
            && (forall fuel :: Meaning(w, program, globals, heap, fuel) == Ok(Normal, Store([], globals, heap)))
            && Run(w, Initial(w, program, globals, heap), 1) == Malformed
  {
    var e := Binary(Mod, Int(a), Int(0));
    var program := [ExprStmt(e)];
    forall fuel: nat ensures Meaning(w, program, globals, heap, fuel) == Ok(Normal, Store([], globals, heap)) {
      RemainderMeans(w, e, a, fuel, globals, heap);
    }
    RemainderCode(w.ar, e, a);
    var items := ProgramCode(w.ar, program);
    assert items == [Plain(Pop)] + ENDING;
    hide ProgramCode, Assemble;
    PopFirst(w.ar, items);
  }

  lemma RemainderMeans(w: World, e: Expr, a: Bits64, fuel: nat, globals: map<Name, Value>, heap: Heap)
    requires e == Binary(Mod, Int(a), Int(0))
    ensures Meaning(w, [ExprStmt(e)], globals, heap, fuel) == Ok(Normal, Store([], globals, heap))
  {
    hide RemEuclid;
    var st := Store([], globals, heap);
    assert Eval(w, true, fuel, 1, Int(a), st) == Ok(Num(w.ar.ofInt(a)), st);
    assert Eval(w, true, fuel, 1, Int(0), st) == Ok(Num(w.ar.ofInt(0)), st);
    var r := Eval(w, true, fuel, 1, e, st);
    assert r.Ok? && r.store == st;
    assert Exec(w, true, fuel, 1, ExprStmt(e), st) == Ok(Normal, st);
    assert [ExprStmt(e)][1..] == [];
    assert ExecAll(w, true, fuel, 1, [], st) == Ok(Normal, st);
    assert ExecAll(w, true, fuel, 1, [ExprStmt(e)], st) == Ok(Normal, st);
  }

  lemma RemainderCode(ar: Arith, e: Expr, a: Bits64)
    requires e == Binary(Mod, Int(a), Int(0))
    ensures ProgramCode(ar, [ExprStmt(e)]) == [Plain(Pop)] + ENDING
  {
    var sc := Scope(true, []);
    LiteralsVanish(ar, sc, Mod, a, 0);
    assert ScopeE(sc, e) == sc;
    assert CodeS(ar, sc, ExprStmt(e)) == [Plain(Pop)];
    assert [ExprStmt(e)][1..] == [];
    assert CodeBody(ar, sc, []) == [] && ScopeBody(sc, []) == sc;
    assert CodeBody(ar, sc, [ExprStmt(e)]) == [Plain(Pop)];
    assert ScopeBody(sc, [ExprStmt(e)]) == sc;
    assert CodeS(ar, sc, Block([ExprStmt(e)])) == [Plain(Pop)] + Pops(0);
  }

  lemma PopFirst(ar: Arith, items: seq<Item>)
    requires items == [Plain(Pop)] + ENDING
    ensures ChunkOf(ar, items).bytes != [] && ChunkOf(ar, items).bytes[0] == 0
  {
    AssembleAppend(ar, EMPTY, [Plain(Pop)], ENDING);
    PutOne(ar, EMPTY, Plain(Pop));
    AssembleGrows(ar, ChunkOf(ar, [Plain(Pop)]), ENDING);
  }

  // ----- constants that compare equal -----

  // The first constant of the pool that compares equal to v.
  predicate FirstEqual(ar: Arith, pool: seq<Value>, v: Value, j: nat) {
    j < |pool| && SameConstant(ar, pool[j], v) && forall i | 0 <= i < j :: !SameConstant(ar, pool[i], v)
  }

  /** The constant that is loaded for v is v itself if and only if the first constant of the pool that compares
      equal to v, where there is one, is v. */
  lemma {:induction false} LiteralsMerge(ar: Arith, pool: seq<Value>, v: Value)
    ensures AddConstant(ar, pool, v)[FindConstant(ar, pool, v)] == v <==>
            forall j: nat | FirstEqual(ar, pool, v, j) :: pool[j] == v
  {
    FindsFirst(ar, pool, v);
    var k := FindConstant(ar, pool, v);
    if k < |pool| {
      assert FirstEqual(ar, pool, v, k);
    }
  }

  lemma {:induction false} FindsFirst(ar: Arith, pool: seq<Value>, v: Value)
    ensures forall j: nat | j < FindConstant(ar, pool, v) :: !SameConstant(ar, pool[j], v)
  {
    if pool != [] && !SameConstant(ar, pool[0], v) {
      FindsFirst(ar, pool[1..], v);
      forall j: nat | j < FindConstant(ar, pool, v) ensures !SameConstant(ar, pool[j], v) {
        assert j > 0 ==> pool[j] == pool[1..][j - 1];
      }
    }
  }

  /** 0.0 and then -0.0: both load the constant 0.0. */
  lemma ZerosMerge(ar: Arith, sc: Scope, z: Double)
    requires ar.eq(z, ar.neg(z))
    ensures var items := CodeE(ar, sc, Float(z)) + CodeE(ar, sc, Unary(Neg, Float(z)));
            && items == [WithConstant(Load, Num(z)), WithConstant(Load, Num(ar.neg(z)))]
            && ChunkOf(ar, items) == Chunk(Encode(PushConst(0)) + Encode(PushConst(0)), [Num(z)])
  {
    hide Encode;
    var first, second := WithConstant(Load, Num(z)), WithConstant(Load, Num(ar.neg(z)));
    PutOne(ar, EMPTY, first);
    PutOne(ar, ChunkOf(ar, [first]), second);
    AssembleAppend(ar, EMPTY, [first], [second]);
    assert [] + Encode(PushConst(0)) == Encode(PushConst(0)) && [] + [Num(z)] == [Num(z)];
  }

  // ----- compound assignment -----

  // The operands that an operator of a compound assignment refuses.
  predicate Refuses(heap: Heap, op: BinaryOp, l: Value, r: Value) {
    && !(l.Num? && r.Num?)
    && !(op.Add? && (l.Text? || r.Text? || (IsArray(heap, l) && IsArray(heap, r))))
  }

  // The operands of + that end the process: one is a string and the other has no text form.
  predicate EndsProcess(op: BinaryOp, l: Value, r: Value) {
    op.Add? && ((l.Text? && NoText(r)) || (r.Text? && NoText(l)))
  }

  predicate NoText(v: Value) {
    !v.Text? && !v.Num? && !v.Bool? && !v.Null?
  }

  lemma MathRefuses(ar: Arith, heap: Heap, op: BinaryOp, l: Value, r: Value)
    requires IsMath(op)
    ensures var m := Math(ar, heap, op, l, r);
            && (m.Failed? <==> Refuses(heap, op, l, r)) && (m.Exits? <==> EndsProcess(op, l, r)) && !m.Unmodelled?
  {
  }

  // Where the operator refuses its operands, both stay on the stack and the right one is the result.
  function AfterRefusal(s: State, l: Value): seq<Value>
    requires s.stack != []
  {
    s.stack[..|s.stack| - 1] + [l, s.stack[|s.stack| - 1]]
  }

  /** A compound assignment to a global leaves the stack as high as it was if and only if its operator takes the
      operands; where it does not, the machine goes on with one value too many and the right operand assigned. */
  lemma GlobalKeepsHeight(w: World, s: State, op: BinaryOp, k: Short, x: Name)
    requires s.stack != [] && ConstantName(s, k) == Some(x) && x in s.globals && IsMath(op)
    ensures var l, r, o := s.globals[x], s.stack[|s.stack| - 1], Execute(w, s, SetGlobalWithMath(OpByte(op), k));
            && (o.Running? && |o.s.stack| == |s.stack| <==> !Refuses(s.heap, op, l, r) && !EndsProcess(op, l, r))
            && (Refuses(s.heap, op, l, r) ==>
                o == Running(s.(stack := AfterRefusal(s, l), globals := s.globals[x := r])))
  {
    MathRefuses(w.ar, s.heap, op, s.globals[x], s.stack[|s.stack| - 1]);
    hide Math, Refuses, EndsProcess;
  }

  /** The same for a local. */
  lemma LocalKeepsHeight(w: World, s: State, op: BinaryOp, slot: Byte)
    requires s.frame.base + slot < |s.stack| - 1 && IsMath(op)
    ensures var at := s.frame.base + slot;
            var l, r, o := s.stack[at], s.stack[|s.stack| - 1], Execute(w, s, SetLocalWithMath(OpByte(op), slot));
            && (o.Running? && |o.s.stack| == |s.stack| <==> !Refuses(s.heap, op, l, r) && !EndsProcess(op, l, r))
            && (Refuses(s.heap, op, l, r) ==> o == Running(s.(stack := AfterRefusal(s, l)[at := r])))
  {
    MathRefuses(w.ar, s.heap, op, s.stack[s.frame.base + slot], s.stack[|s.stack| - 1]);
    hide Math, Refuses, EndsProcess;
  }

  /** A compound assignment is compiled as a plain one if and only if the name is unknown inside a function: the
      name is then declared with the right operand alone. */
  lemma CompoundDeclares(ar: Arith, sc: Scope, op: BinaryOp, x: Name, v: Expr)
    ensures CodeE(ar, sc, Assign(Some(op), Ident(x), v)) == CodeE(ar, sc, Assign(None, Ident(x), v)) <==>
            !sc.top && x !in sc.names
  {
    hide CodeE;
    var vs, a, b := CodeE(ar, ValueScope(sc, x, v), v), StoreNameCode(sc, x, Some(op)), StoreNameCode(sc, x, None);
    NameCodes(ar, sc, Some(op), x, v);
    NameCodes(ar, sc, None, x, v);
    assert (vs + a)[|vs|] == a[0] && (vs + b)[|vs|] == b[0];
  }

  lemma NameCodes(ar: Arith, sc: Scope, op: Option<BinaryOp>, x: Name, v: Expr)
    ensures CodeE(ar, sc, Assign(op, Ident(x), v)) == CodeE(ar, ValueScope(sc, x, v), v) + StoreNameCode(sc, x, op)
  {
    hide StoreNameCode, ValueScope;
  }

  // x = null; x += 1
  function NullPlusOne(x: Name): seq<Stmt> {
    [ExprStmt(Assign(None, Ident(x), Ident(NULL_NAME))), ExprStmt(Assign(Some(Add), Ident(x), Int(1)))]
  }

  lemma {:induction false} NullPlusOneCode(ar: Arith, x: Name)
    ensures ProgramCode(ar, NullPlusOne(x)) ==
            [Plain(PushNull), WithConstant(WriteGlobal, Text(x)), Plain(Pop), WithConstant(Load, Num(ar.ofInt(1))),
             WithConstant(UpdateGlobal(OpByte(Add)), Text(x)), Plain(Pop), Plain(PushNull), Plain(ReturnOp)]
  {
    var sc, p := Scope(true, []), NullPlusOne(x);
    assert CodeE(ar, sc, Ident(NULL_NAME)) == [Plain(PushNull)];
    assert CodeE(ar, sc, Int(1)) == [WithConstant(Load, Num(ar.ofInt(1)))];
    assert ScopeE(sc, p[0].expr) == sc && ScopeE(sc, p[1].expr) == sc;
    StatementsCode(ar, sc, p[0], sc, p[1], sc);
    assert CodeS(ar, sc, Block(p)) == CodeS(ar, sc, p[0]) + CodeS(ar, sc, p[1]) + [];
  }

  // Two statements one after the other.
  lemma {:induction false} StatementsCode(ar: Arith, sc: Scope, a: Stmt, sc1: Scope, b: Stmt, sc2: Scope)
    requires ScopeS(sc, a) == sc1 && ScopeS(sc1, b) == sc2
    ensures CodeBody(ar, sc, [a, b]) == CodeS(ar, sc, a) + CodeS(ar, sc1, b) && ScopeBody(sc, [a, b]) == sc2
  {
    hide CodeS, ScopeS;
    assert [a, b][1..] == [b] && [b][1..] == [];
    assert CodeBody(ar, sc1, [b]) == CodeS(ar, sc1, b) + [];
    assert ScopeBody(sc1, [b]) == ScopeBody(sc2, []);
  }

  /** The program `x = null x += 1` runs to its end without an error, and x is 1. */
  lemma {:induction false} NullPlusOneRuns(w: World, x: Name, globals: map<Name, Value>, heap: Heap)
    ensures Run(w, Initial(w, NullPlusOne(x), globals, heap), 8) == Halted(Null, globals[x := Num(w.ar.ofInt(1))], heap)
  {
    hide *;
    NullPlusOneCode(w.ar, x);
    NullPlusOneStarts(w, x, globals, heap);
    NullPlusOneSteps(w, x, ProgramCode(w.ar, NullPlusOne(x)), globals, heap);
  }

  lemma NullPlusOneStarts(w: World, x: Name, globals: map<Name, Value>, heap: Heap)
    ensures Initial(w, NullPlusOne(x), globals, heap) ==
            State([], Frame(ChunkOf(w.ar, ProgramCode(w.ar, NullPlusOne(x))), 0, 0), [], globals, heap)
  {
    hide ProgramCode, ChunkOf;
  }

  lemma {:induction false} NullPlusOneSteps(w: World, x: Name, p: seq<Item>, globals: map<Name, Value>, heap: Heap)
    requires p == [Plain(PushNull), WithConstant(WriteGlobal, Text(x)), Plain(Pop),
                   WithConstant(Load, Num(w.ar.ofInt(1))), WithConstant(UpdateGlobal(OpByte(Add)), Text(x)),
                   Plain(Pop), Plain(PushNull), Plain(ReturnOp)]
    ensures Run(w, State([], Frame(ChunkOf(w.ar, p), 0, 0), [], globals, heap), 8) ==
            Halted(Null, globals[x := Num(w.ar.ofInt(1))], heap)
  {
    hide Faithful, Offset, Run, ChunkOf, Execute, Reaches;
    var s0, one := State([], Frame(ChunkOf(w.ar, p), 0, 0), [], globals, heap), Num(w.ar.ofInt(1));
    SmallFaithful(w.ar, p, Text(x), one);
    Begins(w, p, globals, heap);
    Pushes(w, s0, 0, p, 0, [], globals, heap, PushNull, Null);
    assert [] + [Null] == [Null] && [] + [one] == [one] && [Null][|[Null]| - 1] == Null;
    Sets(w, s0, 1, p, 1, [Null], globals, heap, x);
    Pops1(w, s0, 2, p, 2, [], globals[x := Null], heap, Null);
    Loads(w, s0, 3, p, 3, [], globals[x := Null], heap, one);
    Refused(w, s0, p, globals[x := Null], heap, x, one);
    assert globals[x := Null][x := one] == globals[x := one];
    Pops1(w, s0, 5, p, 5, [Null], globals[x := one], heap, one);
    Pushes(w, s0, 6, p, 6, [Null], globals[x := one], heap, PushNull, Null);
    Returns(w, s0, 7, p, 7, [Null], globals[x := one], heap, Null);
  }

  // null + a number, into a global.
  lemma {:induction false} Refused(w: World, s0: State, p: seq<Item>, globals: map<Name, Value>, heap: Heap, x: Name,
                                   v: Value)
    requires Faithful(w.ar, p) && Reaches(w, s0, 4, p, 4, [v], globals, heap) && |p| > 5 && v.Num?
    requires p[4] == WithConstant(UpdateGlobal(OpByte(Add)), Text(x)) && x in globals && globals[x] == Null
    ensures Reaches(w, s0, 5, p, 5, [Null] + [v], globals[x := v], heap)
  {
    hide Faithful, Offset, Run, ChunkOf, Execute;
    var j := ConstantStep(w, s0, 4, p, 4, [v], globals, heap, UpdateGlobal(OpByte(Add)), Text(x));
    var s := StateAt(w, p, 5, [v], globals, heap);
    GlobalKeepsHeight(w, s, Add, j, x);
    assert AfterRefusal(s, Null) == [Null] + [v];
  }

  // ----- array indices below the array -----

  /** What the code does not reject: an array index is neither an element nor an error if and only if it is an
      integer below minus the length, and the code then reads or writes before the array. */
  lemma IndexBelowArray(ar: Arith, count: nat, index: Value)
    ensures ArrayIndex(ar, count, index).Unmodelled? <==>
            index.Num? && ar.asInt(index.d).Some? && ar.asInt(index.d).value + count < 0
  {
  }

  // ----- negating a literal -----

  /** Negation of an integer literal is folded to what the machine would compute if and only if the literal is at most
      2^63, for the folding reads it as a signed number, and is not zero or arithmetic does not tell -0 from 0. */
  lemma NegatedLiteral(ar: Arith, heap: Heap, i: Bits64)
    requires Signed(ar)
    ensures ApplyUnary(ar, heap, Neg, Num(ar.ofInt(i))) == Done(Num(FoldUnary(ar, Int(i)))) <==>
            i <= 0x8000_0000_0000_0000 && (i != 0 || ar.neg(ar.ofInt(0)) == ar.ofInt(0))
  {
    hide Wrap64, ToInt64;
    FoldedSign(i);
    var negated: int := -(i as int);
    assert i > 0 ==> ar.neg(ar.ofInt(i)) == ar.ofInt(negated);
    if i > 0x8000_0000_0000_0000 {
      assert ar.ofInt(negated) != ar.ofInt(0x1_0000_0000_0000_0000 - i);
    }
  }

  /** The folded number: the sign is lost above 2^63. */
  lemma FoldedSign(i: int)
    requires 0 <= i < 0x1_0000_0000_0000_0000
    ensures Wrap64(-ToInt64(i)) == if i <= 0x8000_0000_0000_0000 then -i else 0x1_0000_0000_0000_0000 - i
  {
  }

  // ----- the peephole pass and loops -----

  /** while (c) { x = n; } inside a function, where x is new: the loop is not safe to optimize, for its jumps
      pass over a dropped pair. */
  lemma FirstAssignmentInLoop(ar: Arith, c: Name, x: Name, n: Bits64)
    requires c !in {NULL_NAME, TRUE_NAME, FALSE_NAME} && x != c
    ensures var s := While(Ident(c), Block([ExprStmt(Assign(None, Ident(x), Int(n)))]));
            var code := Instrs(ar, CodeS(ar, Scope(false, []), s));
            && |code| == 7 && code[6].Loop? && PairAt(code, 3)
            && Address(code, 7) + Distance(code[6]) == 0
            && |EncodeAll(Before(code, 7))| + Distance(code[6]) == -2 && !Clean(code)
  {
    hide CodeS, Instrs, Before, Address, HoleFree, Size, EncodeAll;
    var s := While(Ident(c), Block([ExprStmt(Assign(None, Ident(x), Int(n)))]));
    var sc := Scope(false, []);
    LoopItems(ar, c, x, n);
    var items := CodeS(ar, sc, s);
    var code := Instrs(ar, items);
    assert items[3] == Plain(Dup) && items[4] == Plain(Pop);
    LoopSize(items);
    forall k: nat | k < 7 ensures (items[k].Plain? ==> code[k] == items[k].i)
        && (items[k].WithConstant? ==> code[k] != Dup) {
      InstrsShow(ar, items, k);
    }
    LoopAddress(ar, items);
    OnePair(code);
    JumpKept(code, 6, 0);
    NothingBefore(code);
    PairJumped(code);
  }

  lemma {:induction false} PairJumped(code: seq<Instr>)
    requires |code| == 7 && code[6].Loop? && Address(code, 7) + Distance(code[6]) == 0 && Pairs(code[0..7]) == 1
    ensures !Clean(code)
  {
    hide Address, Pairs;
    if Clean(code) {
      var j: nat :| JumpsTo(code, 6, j);
      if j > 0 {
        AddressNext(code, j - 1);
      }
    }
  }

  lemma {:induction false} LoopSize(items: seq<Item>)
    requires |items| == 7 && items[0].WithConstant? && items[0].use == ReadGlobal && items[2].WithConstant?
        && items[2].use == Load
    requires items[1] == Plain(PopJumpIfFalse(9)) && items[3] == Plain(Dup) && items[4] == items[5] == Plain(Pop)
        && items[6] == Plain(Loop(15))
    ensures Size(items) == 15 && HoleFree(items)
  {
    hide Size;
    NoSize();
    SizeFrom(items, 6);
    SizeFrom(items, 5);
    SizeFrom(items, 4);
    SizeFrom(items, 3);
    SizeFrom(items, 2);
    SizeFrom(items, 1);
    SizeFrom(items, 0);
    assert items[7..] == [] && items[0..] == items;
  }

  lemma {:induction false} SizeFrom(items: seq<Item>, k: nat)
    requires k < |items|
    ensures Size(items[k..]) == ItemWidth(items[k]) + Size(items[k + 1..])
  {
    assert items[k..][1..] == items[k + 1..];
  }

  lemma LoopItems(ar: Arith, c: Name, x: Name, n: Bits64)
    requires c !in {NULL_NAME, TRUE_NAME, FALSE_NAME} && x != c
    ensures CodeS(ar, Scope(false, []), While(Ident(c), Block([ExprStmt(Assign(None, Ident(x), Int(n)))]))) ==
            [WithConstant(ReadGlobal, Text(c)), Plain(PopJumpIfFalse(9)), WithConstant(Load, Num(ar.ofInt(n))),
                Plain(Dup),
             Plain(Pop), Plain(Pop), Plain(Loop(15))]
  {
    var sc, sc1 := Scope(false, []), Scope(false, [x]);
    var e, v := Assign(None, Ident(x), Int(n)), Int(n);
    var cc := [WithConstant(ReadGlobal, Text(c))];
    assert CodeE(ar, sc, Ident(c)) == cc && ScopeE(sc, Ident(c)) == sc;
    assert CodeE(ar, sc, v) == [WithConstant(Load, Num(ar.ofInt(n)))];
    assert CodeE(ar, sc, e) == [WithConstant(Load, Num(ar.ofInt(n)))] + [Plain(Dup)];
    assert ScopeE(sc, e) == sc1;
    var body := [ExprStmt(e)];
    assert body[1..] == [];
    var cs := CodeE(ar, sc, e) + [Plain(Pop)];
    assert CodeS(ar, sc, ExprStmt(e)) == cs && ScopeS(sc, ExprStmt(e)) == sc1;
    assert CodeBody(ar, sc1, []) == [] && ScopeBody(sc1, []) == sc1;
    assert CodeBody(ar, sc, body) == cs + [] && ScopeBody(sc, body) == sc1;
    var cb := [WithConstant(Load, Num(ar.ofInt(n))), Plain(Dup), Plain(Pop), Plain(Pop)];
    assert CodeS(ar, sc, Block(body)) == cb by { assert Pops(1) == [Plain(Pop)]; }
    LoopSizes(cc, cb);
    assert HoleFree(cb);
    ResolveHoleFree(cb, 6, 9);
    WhileListing(ar, sc, Ident(c), Block(body), sc, cb);
  }

  lemma LoopSizes(cc: seq<Item>, cb: seq<Item>)
    requires |cc| == 1 && cc[0].WithConstant? && cc[0].use == ReadGlobal
    requires |cb| == 4 && cb[0].WithConstant? && cb[0].use == Load && cb[1..] == [Plain(Dup), Plain(Pop), Plain(Pop)]
    ensures Size(cc) == 3 && Size(cb) == 6
  {
    assert cb[1] == Plain(Dup) && cb[2] == Plain(Pop) && cb[3] == Plain(Pop);
    SizeFrom(cb, 3);
    SizeFrom(cb, 2);
    SizeFrom(cb, 1);
    SizeFrom(cb, 0);
    SizeFrom(cc, 0);
    assert cb[4..] == [] && cb[0..] == cb && cc[1..] == [] && cc[0..] == cc;
  }

  lemma LoopAddress(ar: Arith, items: seq<Item>)
    requires |items| == 7 && Size(items) == 15
    ensures Address(Instrs(ar, items), 7) == 15 && Address(Instrs(ar, items), 0) == 0
  {
    InstrsAddress(ar, items, 7);
    InstrsAddress(ar, items, 0);
    assert items[..7] == items && items[..0] == [];
  }

  lemma {:induction false} OnePair(code: seq<Instr>)
    requires |code| == 7 && PairAt(code, 3) && code[0] != Dup && code[1] != Dup && code[2] != Dup && code[5] == Pop
        && code[6].Loop?
    ensures Pairs(code[0..7]) == 1 && !Inside(code, 0) && !PairAt(code, 6)
  {
    assert code[0..7] == code == code[0..] && code[7..] == [];
    PairsFrom(code, 6);
    PairsFrom(code, 5);
    PairsFrom(code, 3);
    PairsFrom(code, 2);
    PairsFrom(code, 1);
    PairsFrom(code, 0);
  }

  lemma {:induction false} PairsFrom(code: seq<Instr>, k: nat)
    requires k < |code|
    ensures Pairs(code[k..]) == if PairAt(code, k) then 1 + Pairs(code[k + 2..]) else Pairs(code[k + 1..])
  {
    assert code[k..][1..] == code[k + 1..] && (k + 2 <= |code| ==> code[k..][2..] == code[k + 2..]);
    assert PairAt(code[k..], 0) == PairAt(code, k);
  }
}

/**
 Locals in the wrong slot: a break that leaves a local behind, an arm without braces that declares one, and a first
 assignment among pending operands. Each gives a function that means one thing and whose bytes return another. The
 last lemma says when a new local is in its slot.
 */
module Misplaced {
  import opened Syntax
  import opened Arithmetic
  import opened Values
  import opened Primitives
  import opened Bytecode
  import opened Assembly
  import opened Codegen
  import opened Vm
  import opened Semantics
  import opened Machine
  import opened Compiler
  import opened Jumps
  import opened Traces

  // Literals that arithmetic tells apart.
  predicate OneIsNotTwo(ar: Arith) {
    !ar.eq(ar.ofInt(1), ar.ofInt(2)) && !ar.eq(ar.ofInt(2), ar.ofInt(1))
  }

  // A name that is a variable.
  predicate Ordinary(x: Name) {
    x !in {NULL_NAME, TRUE_NAME, FALSE_NAME}
  }

  function Number(ar: Arith, n: Bits64): Value {
    Num(ar.ofInt(n))
  }

  // x = n for a new local x.
  function Declare(x: Name, n: Bits64): Stmt {
    ExprStmt(Assign(None, Ident(x), Int(n)))
  }

  lemma DeclareCode(ar: Arith, sc: Scope, x: Name, n: Bits64)
    requires !sc.top && x !in sc.names && |sc.names| < LOCALS_MAX
    ensures CodeS(ar, sc, Declare(x, n)) == [WithConstant(Load, Number(ar, n)), Plain(Dup), Plain(Pop)]
        && ScopeS(sc, Declare(x, n)) == Scope(false, sc.names + [x])
  {
    var e := Assign(None, Ident(x), Int(n));
    assert CodeE(ar, sc, Int(n)) == [WithConstant(Load, Number(ar, n))];
    assert CodeE(ar, sc, e) == [WithConstant(Load, Number(ar, n))] + [Plain(Dup)];
    assert ScopeE(sc, e) == Scope(false, sc.names + [x]);
  }

  lemma ReturnCode(ar: Arith, sc: Scope, x: Name, k: Byte)
    requires Ordinary(x) && IndexOf(sc.names, x) == Some(k)
    ensures CodeS(ar, sc, Return(Ident(x))) == [Plain(GetLocal(k)), Plain(ReturnOp)]
        && ScopeS(sc, Return(Ident(x))) == sc
  {
    assert CodeE(ar, sc, Ident(x)) == [Plain(GetLocal(k))];
  }

  lemma FirstCode(ar: Arith, sc: Scope, s: Stmt, rest: seq<Stmt>)
    ensures CodeBody(ar, sc, [s] + rest) == CodeS(ar, sc, s) + CodeBody(ar, ScopeS(sc, s), rest)
    ensures ScopeBody(sc, [s] + rest) == ScopeBody(ScopeS(sc, s), rest)
    ensures CodeBody(ar, sc, []) == [] && ScopeBody(sc, []) == sc
  {
    hide CodeS, ScopeS;
    assert ([s] + rest)[1..] == rest;
  }

  lemma FirstExec(w: World, fuel: nat, s: Stmt, rest: seq<Stmt>, st: Store, st1: Store)
    requires Exec(w, false, fuel, 1, s, st) == Ok(Normal, st1)
    ensures ExecAll(w, false, fuel, 1, [s] + rest, st) == ExecAll(w, false, fuel, 1, rest, st1)
  {
    hide Exec;
    assert ([s] + rest)[1..] == rest;
  }

  lemma DeclareExec(w: World, fuel: nat, env: seq<Binding>, x: Name, n: Bits64, globals: map<Name, Value>, heap: Heap)
    requires Lookup(env, x) == None
    ensures Exec(w, false, fuel, 1, Declare(x, n), Store(env, globals, heap)) ==
            Ok(Normal, Store(env + [Binding(x, Number(w.ar, n))], globals, heap))
  {
    var st, b := Store(env, globals, heap), env + [Binding(x, Number(w.ar, n))];
    assert Eval(w, false, fuel, 1, Int(n), st) == Ok(Number(w.ar, n), st);
    assert Eval(w, false, fuel, 1, Assign(None, Ident(x), Int(n)), st) == Ok(Number(w.ar, n), Store(b, globals, heap));
  }

  lemma ReturnExec(w: World, fuel: nat, env: seq<Binding>, x: Name, k: nat, globals: map<Name, Value>, heap: Heap)
    requires Ordinary(x) && Lookup(env, x) == Some(k)
    ensures var st := Store(env, globals, heap);
            ExecAll(w, false, fuel, 1, [Return(Ident(x))], st) == Ok(Returned(env[k].value), st)
  {
    var st := Store(env, globals, heap);
    assert Eval(w, false, fuel, 1, Ident(x), st) == Ok(env[k].value, st);
    assert [Return(Ident(x))][0] == Return(Ident(x));
    assert Exec(w, false, fuel, 1, Return(Ident(x)), st) == Ok(Returned(env[k].value), st);
  }

  // The code of a first assignment, as a statement.
  lemma {:induction false} Declared(w: World, s0: State, n: nat, p: seq<Item>, k: nat, stack: seq<Value>,
      globals: map<Name, Value>, heap: Heap, v: Value)
    requires Faithful(w.ar, p) && Reaches(w, s0, n, p, k, stack, globals, heap) && k + 3 <= |p|
    requires p[k] == WithConstant(Load, v) && p[k + 1] == Plain(Dup) && p[k + 2] == Plain(Pop)
    ensures Reaches(w, s0, n + 3, p, k + 3, stack + [v], globals, heap)
  {
    hide Faithful, Reaches;
    Loads(w, s0, n, p, k, stack, globals, heap, v);
    Dups(w, s0, n + 1, p, k + 1, stack, globals, heap, v);
    assert stack + [v, v] == (stack + [v]) + [v];
    Pops1(w, s0, n + 2, p, k + 2, stack + [v], globals, heap, v);
  }

  // ----- break -----

  // while true { x = 1 break }
  function LeavingLoop(x: Name): Stmt {
    While(Ident(TRUE_NAME), Block([Declare(x, 1), Break]))
  }

  // fn { while true { x = 1 break } y = 2 return y }
  function BreakLeavesLocal(x: Name, y: Name): Function {
    Function([], Block([LeavingLoop(x), Declare(y, 2), Return(Ident(y))]))
  }

  lemma {:induction false} LeavingLoopCode(ar: Arith, x: Name)
    ensures CodeS(ar, Scope(false, []), LeavingLoop(x)) ==
            [Plain(PushTrue), Plain(PopJumpIfFalse(12)), WithConstant(Load, Number(ar, 1)), Plain(Dup), Plain(Pop),
             Plain(Jump(4)), Plain(Pop), Plain(Loop(16))]
    ensures ScopeS(Scope(false, []), LeavingLoop(x)) == Scope(false, [])
  {
    hide Size, Resolve, WhileCode, Offset;
    var sc, sc1, body := Scope(false, []), Scope(false, [x]), [Declare(x, 1), Break];
    var cc, cb := [Plain(PushTrue)], [WithConstant(Load, Number(ar, 1)), Plain(Dup), Plain(Pop), BreakHole, Plain(Pop)];
    DeclareCode(ar, sc, x, 1);
    assert body == [Declare(x, 1)] + [Break] && [Break] == [Break] + [];
    FirstCode(ar, sc, Declare(x, 1), [Break]);
    FirstCode(ar, sc1, Break, []);
    assert Pops(1) == [Plain(Pop)];
    assert CodeS(ar, sc, Block(body)) == cb && ScopeS(sc, Block(body)) == sc;
    assert CodeE(ar, sc, Ident(TRUE_NAME)) == cc && ScopeE(sc, Ident(TRUE_NAME)) == sc;
    LeavingSizes(ar, cc, cb);
  }

  lemma {:induction false} LeavingSizes(ar: Arith, cc: seq<Item>, cb: seq<Item>)
    requires cc == [Plain(PushTrue)]
    requires cb == [WithConstant(Load, Number(ar, 1)), Plain(Dup), Plain(Pop), BreakHole, Plain(Pop)]
    ensures WhileCode(cc, cb) ==
            [Plain(PushTrue), Plain(PopJumpIfFalse(12)), WithConstant(Load, Number(ar, 1)), Plain(Dup), Plain(Pop),
             Plain(Jump(4)), Plain(Pop), Plain(Loop(16))]
  {
    hide Size, Resolve, Offset;
    Widths(cc);
    Widths(cb);
    var r := Resolve(cb, 4, 12);
    ResolveAt(cb, 4, 12, 0);
    ResolveAt(cb, 4, 12, 1);
    ResolveAt(cb, 4, 12, 2);
    ResolveAt(cb, 4, 12, 3);
    ResolveAt(cb, 4, 12, 4);
    assert r == [WithConstant(Load, Number(ar, 1)), Plain(Dup), Plain(Pop), Plain(Jump(4)), Plain(Pop)];
  }

  // The addresses of the first items of a listing.
  lemma {:induction false} Widths(p: seq<Item>)
    ensures Offset(p, 0) == 0 && Offset(p, |p|) == Size(p)
    ensures forall k | 0 <= k < |p| :: Offset(p, k + 1) == Offset(p, k) + ItemWidth(p[k])
  {
    hide Size;
    NoSize();
    assert p[..0] == [];
    WholeOffset(p);
    forall k | 0 <= k < |p| ensures Offset(p, k + 1) == Offset(p, k) + ItemWidth(p[k]) {
      OffsetNext(p, k);
    }
  }

  lemma {:induction false} BreakCode(ar: Arith, x: Name, y: Name)
    requires Ordinary(y)
    ensures FunctionCode(ar, BreakLeavesLocal(x, y)) ==
            [Plain(PushTrue), Plain(PopJumpIfFalse(12)), WithConstant(Load, Number(ar, 1)), Plain(Dup), Plain(Pop),
             Plain(Jump(4)), Plain(Pop), Plain(Loop(16)), WithConstant(Load, Number(ar, 2)), Plain(Dup), Plain(Pop),
             Plain(GetLocal(0)), Plain(ReturnOp), Plain(Pop), Plain(PushNull), Plain(ReturnOp)]
  {
    hide WhileCode, LeavingLoop, Declare;
    var sc, sc1, body := Scope(false, []), Scope(false, [y]), [LeavingLoop(x), Declare(y, 2), Return(Ident(y))];
    LeavingLoopCode(ar, x);
    DeclareCode(ar, sc, y, 2);
    ReturnCode(ar, sc1, y, 0);
    assert body == [LeavingLoop(x)] + ([Declare(y, 2)] + ([Return(Ident(y))] + []));
    FirstCode(ar, sc, LeavingLoop(x), [Declare(y, 2)] + ([Return(Ident(y))] + []));
    FirstCode(ar, sc, Declare(y, 2), [Return(Ident(y))] + []);
    FirstCode(ar, sc1, Return(Ident(y)), []);
    assert Pops(1) == [Plain(Pop)];
  }

  lemma {:induction false} BreakMeans(w: World, fuel: nat, x: Name, y: Name, globals: map<Name, Value>, heap: Heap)
    requires Ordinary(y)
    ensures Exec(w, false, fuel, 1, BreakLeavesLocal(x, y).code, Store([], globals, heap)) ==
            Ok(Returned(Number(w.ar, 2)), Store([], globals, heap))
  {
    var st, st2 := Store([], globals, heap), Store([Binding(y, Number(w.ar, 2))], globals, heap);
    LoopMeans(w, fuel, x, globals, heap);
    DeclareExec(w, fuel, [], y, 2, globals, heap);
    ReturnExec(w, fuel, st2.env, y, 0, globals, heap);
    hide LeavingLoop, Declare, ExecAll;
    var body := [LeavingLoop(x), Declare(y, 2), Return(Ident(y))];
    assert body == [LeavingLoop(x)] + ([Declare(y, 2)] + [Return(Ident(y))]);
    FirstExec(w, fuel, LeavingLoop(x), [Declare(y, 2)] + [Return(Ident(y))], st, st);
    FirstExec(w, fuel, Declare(y, 2), [Return(Ident(y))], st, st2);
    assert st2.env[..0] == [];
  }

  lemma {:induction false} LoopMeans(w: World, fuel: nat, x: Name, globals: map<Name, Value>, heap: Heap)
    ensures var st := Store([], globals, heap); Exec(w, false, fuel, 1, LeavingLoop(x), st) == Ok(Normal, st)
  {
    var st, st1 := Store([], globals, heap), Store([Binding(x, Number(w.ar, 1))], globals, heap);
    DeclareExec(w, fuel, [], x, 1, globals, heap);
    hide Declare;
    var body := [Declare(x, 1), Break];
    assert body == [Declare(x, 1)] + [Break];
    FirstExec(w, fuel, Declare(x, 1), [Break], st, st1);
    assert [Break][0] == Break;
    assert Exec(w, false, fuel, 1, Break, st1) == Ok(Broke, st1);
    assert ExecAll(w, false, fuel, 1, [Break], st1) == Ok(Broke, st1);
    assert st1.env[..0] == [];
    assert Exec(w, false, fuel, 1, Block(body), st) == Ok(Broke, st);
    assert Eval(w, false, fuel, 1, Ident(TRUE_NAME), st) == Ok(Bool(true), st);
  }

  /** `fn { while true { x = 1 break } y = 2 return y }` means 2, and its bytes return 1. */
  lemma {:induction false} BreakReturnsWrong(w: World, fuel: nat, x: Name, y: Name, globals: map<Name, Value>,
      heap: Heap)
    requires Ordinary(y) && OneIsNotTwo(w.ar)
    ensures var f := BreakLeavesLocal(x, y);
            && Exec(w, false, fuel, 1, f.code, Store([], globals, heap)) ==
               Ok(Returned(Number(w.ar, 2)), Store([], globals, heap))
            && Run(w, State([], Frame(ChunkOf(w.ar, FunctionCode(w.ar, f)), 0, 0), [], globals, heap), 11) ==
               Halted(Number(w.ar, 1), globals, heap)
  {
    hide *;
    BreakMeans(w, fuel, x, y, globals, heap);
    BreakCode(w.ar, x, y);
    BreakRuns(w, x, y, FunctionCode(w.ar, BreakLeavesLocal(x, y)), globals, heap);
  }

  // The break, with the local of the loop still there.
  lemma {:induction false} Leaves(w: World, s0: State, p: seq<Item>, globals: map<Name, Value>, heap: Heap, one: Value)
    requires Faithful(w.ar, p) && Reaches(w, s0, 0, p, 0, [], globals, heap) && |p| > 8
    requires p[..8] == [Plain(PushTrue), Plain(PopJumpIfFalse(12)), WithConstant(Load, one), Plain(Dup), Plain(Pop),
                        Plain(Jump(4)), Plain(Pop), Plain(Loop(16))]
    ensures Reaches(w, s0, 6, p, 8, [one], globals, heap)
  {
    hide Faithful, Offset, Run, ChunkOf, Execute, Reaches;
    assert forall k | 0 <= k < 8 :: p[k] == p[..8][k];
    Pushes(w, s0, 0, p, 0, [], globals, heap, PushTrue, Bool(true));
    assert [] + [Bool(true)] == [Bool(true)];
    GoesOn(w, s0, 1, p, 1, [], globals, heap, 12);
    Declared(w, s0, 2, p, 2, [], globals, heap, one);
    assert [] + [one] == [one];
    OffsetNext(p, 6);
    OffsetNext(p, 7);
    Jumps1(w, s0, 5, p, 5, [one], globals, heap, 4, 8);
  }

  lemma {:induction false} BreakRuns(w: World, x: Name, y: Name, p: seq<Item>, globals: map<Name, Value>, heap: Heap)
    requires OneIsNotTwo(w.ar)
    requires p == [Plain(PushTrue), Plain(PopJumpIfFalse(12)), WithConstant(Load, Number(w.ar, 1)), Plain(Dup),
                   Plain(Pop), Plain(Jump(4)), Plain(Pop), Plain(Loop(16)), WithConstant(Load, Number(w.ar, 2)),
                   Plain(Dup), Plain(Pop), Plain(GetLocal(0)), Plain(ReturnOp), Plain(Pop), Plain(PushNull),
                   Plain(ReturnOp)]
    ensures Run(w, State([], Frame(ChunkOf(w.ar, p), 0, 0), [], globals, heap), 11) ==
            Halted(Number(w.ar, 1), globals, heap)
  {
    hide Faithful, Offset, Run, ChunkOf, Execute, Reaches;
    var s0 := State([], Frame(ChunkOf(w.ar, p), 0, 0), [], globals, heap);
    var one, two := Number(w.ar, 1), Number(w.ar, 2);
    SmallFaithful(w.ar, p, one, two);
    Begins(w, p, globals, heap);
    Leaves(w, s0, p, globals, heap, one);
    Declared(w, s0, 6, p, 8, [one], globals, heap, two);
    Pushes(w, s0, 9, p, 11, [one] + [two], globals, heap, GetLocal(0), one);
    Returns(w, s0, 10, p, 12, [one] + [two], globals, heap, one);
  }

  // ----- a local declared by an arm -----

  // if null => x = 1
  function UnbracedArm(x: Name): Stmt {
    If(Ident(NULL_NAME), Declare(x, 1), None)
  }

  // fn { if null => x = 1 y = 1 z = 2 return y }
  function ArmDeclares(x: Name, y: Name, z: Name): Function {
    Function([], Block([UnbracedArm(x), Declare(y, 1), Declare(z, 2), Return(Ident(y))]))
  }

  function ArmListing(one: Value, two: Value): seq<Item> {
    [Plain(PushNull), Plain(PopJumpIfFalse(8)), WithConstant(Load, one), Plain(Dup), Plain(Pop), Plain(Jump(0)),
     WithConstant(Load, one), Plain(Dup), Plain(Pop), WithConstant(Load, two), Plain(Dup), Plain(Pop),
     Plain(GetLocal(1)), Plain(ReturnOp), Plain(Pop), Plain(Pop), Plain(Pop), Plain(PushNull), Plain(ReturnOp)]
  }

  lemma {:induction false} UnbracedArmCode(ar: Arith, x: Name)
    ensures CodeS(ar, Scope(false, []), UnbracedArm(x)) ==
            [Plain(PushNull), Plain(PopJumpIfFalse(8)), WithConstant(Load, Number(ar, 1)), Plain(Dup), Plain(Pop),
             Plain(Jump(0))]
    ensures ScopeS(Scope(false, []), UnbracedArm(x)) == Scope(false, [x])
  {
    hide Size, Declare;
    var sc, cc, ca := Scope(false, []), [Plain(PushNull)], [WithConstant(Load, Number(ar, 1)), Plain(Dup), Plain(Pop)];
    DeclareCode(ar, sc, x, 1);
    assert CodeE(ar, sc, Ident(NULL_NAME)) == cc && ScopeE(sc, Ident(NULL_NAME)) == sc;
    assert sc.names + [x] == [x];
    assert CodeS(ar, sc, UnbracedArm(x)) == IfCode(cc, ca, []);
    ArmSizes(ar, cc, ca);
  }

  lemma {:induction false} ArmSizes(ar: Arith, cc: seq<Item>, ca: seq<Item>)
    requires cc == [Plain(PushNull)] && ca == [WithConstant(Load, Number(ar, 1)), Plain(Dup), Plain(Pop)]
    ensures IfCode(cc, ca, []) ==
            [Plain(PushNull), Plain(PopJumpIfFalse(8)), WithConstant(Load, Number(ar, 1)), Plain(Dup), Plain(Pop),
             Plain(Jump(0))]
  {
    hide Size;
    Widths(ca);
    NoSize();
    assert Offset(ca, 1) == 3 && Offset(ca, 2) == 4 && Offset(ca, 3) == 5;
  }

  lemma {:induction false} ArmCode(ar: Arith, x: Name, y: Name, z: Name)
    requires Ordinary(y) && x != y && x != z && y != z
    ensures FunctionCode(ar, ArmDeclares(x, y, z)) == ArmListing(Number(ar, 1), Number(ar, 2))
  {
    hide UnbracedArm, Declare, CodeS, ScopeS, CodeBody, ScopeBody, Pops;
    var a, rest := UnbracedArm(x), [Declare(y, 1), Declare(z, 2), Return(Ident(y))];
    UnbracedArmCode(ar, x);
    AfterArmCode(ar, x, y, z);
    FirstCode(ar, Scope(false, []), a, rest);
    assert [a, rest[0], rest[1], rest[2]] == [a] + rest;
    ThreeLocals(ar, [a] + rest, Scope(false, [x, y, z]));
  }

  lemma {:induction false} AfterArmCode(ar: Arith, x: Name, y: Name, z: Name)
    requires Ordinary(y) && x != y && x != z && y != z
    ensures var sc, rest := Scope(false, [x]), [Declare(y, 1), Declare(z, 2), Return(Ident(y))];
            && CodeBody(ar, sc, rest) ==
               [WithConstant(Load, Number(ar, 1)), Plain(Dup), Plain(Pop), WithConstant(Load, Number(ar, 2)),
                Plain(Dup), Plain(Pop), Plain(GetLocal(1)), Plain(ReturnOp)]
            && ScopeBody(sc, rest) == Scope(false, [x, y, z])
  {
    hide Declare, CodeS, ScopeS, CodeBody, ScopeBody;
    var b, c, d := Declare(y, 1), Declare(z, 2), Return(Ident(y));
    var sc1, sc2, sc3 := Scope(false, [x]), Scope(false, [x, y]), Scope(false, [x, y, z]);
    assert sc1.names + [y] == sc2.names && sc2.names + [z] == sc3.names;
    DeclareCode(ar, sc1, y, 1);
    DeclareCode(ar, sc2, z, 2);
    SecondName(x, y, sc3.names);
    ReturnCode(ar, sc3, y, 1);
    FirstCode(ar, sc1, b, [c, d]);
    FirstCode(ar, sc2, c, [d]);
    FirstCode(ar, sc3, d, []);
    assert [b, c, d] == [b] + [c, d] && [c, d] == [c] + [d] && [d] == [d] + [];
  }

  lemma SecondName(x: Name, y: Name, names: seq<Name>)
    requires |names| >= 2 && names[0] == x && names[1] == y && x != y
    ensures IndexOf(names, y) == Some(1)
  {
    assert names[1..][0] == y;
  }

  lemma ThreeLocals(ar: Arith, body: seq<Stmt>, sc: Scope)
    requires ScopeBody(Scope(false, []), body) == sc && |sc.names| == 3
    ensures CodeS(ar, Scope(false, []), Block(body)) ==
            CodeBody(ar, Scope(false, []), body) + [Plain(Pop), Plain(Pop), Plain(Pop)]
  {
    hide CodeBody;
    assert Pops(3) == [Plain(Pop), Plain(Pop), Plain(Pop)];
  }

  lemma {:induction false} ArmMeans(w: World, fuel: nat, x: Name, y: Name, z: Name, globals: map<Name, Value>,
      heap: Heap)
    requires Ordinary(y) && y != z
    ensures Exec(w, false, fuel, 1, ArmDeclares(x, y, z).code, Store([], globals, heap)) ==
            Ok(Returned(Number(w.ar, 1)), Store([], globals, heap))
  {
    var st := Store([], globals, heap);
    var e1 := [] + [Binding(y, Number(w.ar, 1))];
    var e2 := e1 + [Binding(z, Number(w.ar, 2))];
    var st1, st2 := Store(e1, globals, heap), Store(e2, globals, heap);
    var a, b, c, d := UnbracedArm(x), Declare(y, 1), Declare(z, 2), Return(Ident(y));
    assert Eval(w, false, fuel, 1, Ident(NULL_NAME), st) == Ok(Null, st);
    assert Exec(w, false, fuel, 1, a, st) == Ok(Normal, st);
    assert Names(e1) == [y] && Names(e2) == [y, z];
    hide UnbracedArm, Declare, ExecAll;
    DeclareExec(w, fuel, [], y, 1, globals, heap);
    DeclareExec(w, fuel, e1, z, 2, globals, heap);
    ReturnExec(w, fuel, e2, y, 0, globals, heap);
    FirstExec(w, fuel, a, [b, c, d], st, st);
    FirstExec(w, fuel, b, [c, d], st, st1);
    FirstExec(w, fuel, c, [d], st1, st2);
    assert [a, b, c, d] == [a] + [b, c, d] && [b, c, d] == [b] + [c, d] && [c, d] == [c] + [d];
    assert e2[..0] == [];
  }

  /** `fn { if null => x = 1 y = 1 z = 2 return y }` means 1, and its bytes return 2: no operand is pending where y
      is assigned, but the compiler counts x among the locals and the machine has no value for it. */
  lemma {:induction false} ArmReturnsWrong(w: World, fuel: nat, x: Name, y: Name, z: Name, globals: map<Name, Value>,
      heap: Heap)
    requires Ordinary(y) && x != y && x != z && y != z && OneIsNotTwo(w.ar)
    ensures var f := ArmDeclares(x, y, z);
            && Exec(w, false, fuel, 1, f.code, Store([], globals, heap)) ==
               Ok(Returned(Number(w.ar, 1)), Store([], globals, heap))
            && Run(w, State([], Frame(ChunkOf(w.ar, FunctionCode(w.ar, f)), 0, 0), [], globals, heap), 10) ==
               Halted(Number(w.ar, 2), globals, heap)
  {
    hide *;
    ArmMeans(w, fuel, x, y, z, globals, heap);
    ArmCode(w.ar, x, y, z);
    ArmRuns(w, FunctionCode(w.ar, ArmDeclares(x, y, z)), Number(w.ar, 1), Number(w.ar, 2), globals, heap);
  }

  lemma {:induction false} ArmRuns(w: World, p: seq<Item>, one: Value, two: Value, globals: map<Name, Value>,
      heap: Heap)
    requires p == ArmListing(one, two) && one == Number(w.ar, 1) && two == Number(w.ar, 2) && OneIsNotTwo(w.ar)
    ensures Run(w, State([], Frame(ChunkOf(w.ar, p), 0, 0), [], globals, heap), 10) == Halted(two, globals, heap)
  {
    hide Faithful, Offset, Run, ChunkOf, Execute, Reaches, Simple, SameConstant;
    var s0 := State([], Frame(ChunkOf(w.ar, p), 0, 0), [], globals, heap);
    ArmSimple(p, one, two);
    SmallFaithful(w.ar, p, one, two) by {
      Apart(w.ar);
    }
    Begins(w, p, globals, heap);
    ArmSkipped(w, s0, p, one, two, globals, heap);
    ArmTail(w, s0, p, one, two, globals, heap);
  }

  lemma Apart(ar: Arith)
    requires OneIsNotTwo(ar)
    ensures !SameConstant(ar, Number(ar, 1), Number(ar, 2)) && !SameConstant(ar, Number(ar, 2), Number(ar, 1))
  {
  }

  lemma ArmSimple(p: seq<Item>, one: Value, two: Value)
    requires p == ArmListing(one, two)
    ensures Simple(p, one, two)
  {
  }

  lemma {:induction false} ArmTail(w: World, s0: State, p: seq<Item>, one: Value, two: Value,
      globals: map<Name, Value>, heap: Heap)
    requires p == ArmListing(one, two) && Faithful(w.ar, p) && Reaches(w, s0, 2, p, 6, [], globals, heap)
    ensures Run(w, s0, 10) == Halted(two, globals, heap)
  {
    hide Faithful, Offset, Run, ChunkOf, Execute, Reaches;
    Declared(w, s0, 2, p, 6, [], globals, heap, one);
    assert [] + [one] == [one];
    Declared(w, s0, 5, p, 9, [one], globals, heap, two);
    Pushes(w, s0, 8, p, 12, [one] + [two], globals, heap, GetLocal(1), two);
    Returns(w, s0, 9, p, 13, [one] + [two], globals, heap, two);
  }

  // The arm is jumped over.
  lemma {:induction false} ArmSkipped(w: World, s0: State, p: seq<Item>, one: Value, two: Value,
      globals: map<Name, Value>, heap: Heap)
    requires p == ArmListing(one, two) && Faithful(w.ar, p) && Reaches(w, s0, 0, p, 0, [], globals, heap)
    ensures Reaches(w, s0, 2, p, 6, [], globals, heap)
  {
    hide Faithful, Offset, Run, ChunkOf, Execute, Reaches;
    Pushes(w, s0, 0, p, 0, [], globals, heap, PushNull, Null);
    assert [] + [Null] == [Null];
    OffsetNext(p, 2);
    OffsetNext(p, 3);
    OffsetNext(p, 4);
    OffsetNext(p, 5);
    JumpsOff(w, s0, 1, p, 1, [], globals, heap, 8, 6);
  }

  // ----- a first assignment among pending operands -----

  // fn { 1 + (x = 2) return x }
  function PendingAssignment(x: Name): Function {
    Function([], Block([ExprStmt(Binary(Add, Int(1), Assign(None, Ident(x), Int(2)))), Return(Ident(x))]))
  }

  lemma {:induction false} PendingSum(ar: Arith, x: Name, sc: Scope, e: Expr, sum: Expr)
    requires sc == Scope(false, []) && e == Assign(None, Ident(x), Int(2)) && sum == Binary(Add, Int(1), e)
    ensures CodeE(ar, sc, sum) ==
            [WithConstant(Load, Number(ar, 1)), WithConstant(Load, Number(ar, 2)), Plain(Dup), Plain(Operate(Add))]
    ensures ScopeE(sc, sum) == Scope(false, [x])
  {
    assert CodeE(ar, sc, Int(2)) == [WithConstant(Load, Number(ar, 2))];
    assert CodeE(ar, sc, e) == [WithConstant(Load, Number(ar, 2))] + [Plain(Dup)];
    assert ScopeE(sc, e) == Scope(false, [x]);
    assert CodeE(ar, sc, Int(1)) == [WithConstant(Load, Number(ar, 1))] && ScopeE(sc, Int(1)) == sc;
    assert CodeE(ar, sc, sum) == [WithConstant(Load, Number(ar, 1))] + CodeE(ar, sc, e) + [Plain(Operate(Add))];
  }

  lemma {:induction false} PendingCode(ar: Arith, x: Name)
    requires Ordinary(x)
    ensures FunctionCode(ar, PendingAssignment(x)) ==
            [WithConstant(Load, Number(ar, 1)), WithConstant(Load, Number(ar, 2)), Plain(Dup), Plain(Operate(Add)),
             Plain(Pop), Plain(GetLocal(0)), Plain(ReturnOp), Plain(Pop), Plain(PushNull), Plain(ReturnOp)]
  {
    hide CodeS, ScopeS, CodeBody, ScopeBody, CodeE, ScopeE, Pops;
    var sc, sc1, e := Scope(false, []), Scope(false, [x]), Assign(None, Ident(x), Int(2));
    var s := ExprStmt(Binary(Add, Int(1), e));
    PendingSum(ar, x, sc, e, s.expr);
    SimpleCode(ar, sc, s.expr);
    ReturnCode(ar, sc1, x, 0);
    FirstCode(ar, sc, s, [Return(Ident(x))]);
    FirstCode(ar, sc1, Return(Ident(x)), []);
    assert [s, Return(Ident(x))] == [s] + [Return(Ident(x))] && [Return(Ident(x))] == [Return(Ident(x))] + [];
    OneLocal(ar, [s, Return(Ident(x))], x);
  }

  lemma SimpleCode(ar: Arith, sc: Scope, e: Expr)
    ensures CodeS(ar, sc, ExprStmt(e)) == CodeE(ar, sc, e) + [Plain(Pop)] && ScopeS(sc, ExprStmt(e)) == ScopeE(sc, e)
  {
    hide CodeE, ScopeE;
  }

  // The block of a function that declares one local.
  lemma OneLocal(ar: Arith, body: seq<Stmt>, x: Name)
    requires ScopeBody(Scope(false, []), body) == Scope(false, [x])
    ensures CodeS(ar, Scope(false, []), Block(body)) == CodeBody(ar, Scope(false, []), body) + [Plain(Pop)]
  {
    hide CodeBody;
    assert Pops(1) == [Plain(Pop)];
  }

  lemma {:induction false} PendingMeans(w: World, fuel: nat, x: Name, globals: map<Name, Value>, heap: Heap)
    requires Ordinary(x)
    ensures Exec(w, false, fuel, 1, PendingAssignment(x).code, Store([], globals, heap)) ==
            Ok(Returned(Number(w.ar, 2)), Store([], globals, heap))
  {
    var st, st1 := Store([], globals, heap), Store([Binding(x, Number(w.ar, 2))], globals, heap);
    var e := Assign(None, Ident(x), Int(2));
    var s := ExprStmt(Binary(Add, Int(1), e));
    assert Eval(w, false, fuel, 1, e, st) == Ok(Number(w.ar, 2), st1) by {
      assert Lookup([], x) == None;
      assert Eval(w, false, fuel, 1, Int(2), st) == Ok(Number(w.ar, 2), st);
      assert [] + [Binding(x, Number(w.ar, 2))] == [Binding(x, Number(w.ar, 2))];
    }
    assert Eval(w, false, fuel, 1, Int(1), st) == Ok(Number(w.ar, 1), st);
    assert Exec(w, false, fuel, 1, s, st) == Ok(Normal, st1);
    ReturnExec(w, fuel, st1.env, x, 0, globals, heap);
    FirstExec(w, fuel, s, [Return(Ident(x))], st, st1);
    assert [s, Return(Ident(x))] == [s] + [Return(Ident(x))];
    assert st1.env[..0] == [];
  }

  /** `fn { 1 + (x = 2) return x }` means 2, and its bytes return 1. */
  lemma {:induction false} PendingReturnsWrong(w: World, fuel: nat, x: Name, globals: map<Name, Value>, heap: Heap)
    requires Ordinary(x) && OneIsNotTwo(w.ar)
    ensures var f := PendingAssignment(x);
            && Exec(w, false, fuel, 1, f.code, Store([], globals, heap)) ==
               Ok(Returned(Number(w.ar, 2)), Store([], globals, heap))
            && Run(w, State([], Frame(ChunkOf(w.ar, FunctionCode(w.ar, f)), 0, 0), [], globals, heap), 7) ==
               Halted(Number(w.ar, 1), globals, heap)
  {
    hide Faithful, Offset, Run, ChunkOf, FunctionCode, Execute, Exec, PendingAssignment;
    PendingMeans(w, fuel, x, globals, heap);
    var p := FunctionCode(w.ar, PendingAssignment(x));
    var s0 := State([], Frame(ChunkOf(w.ar, p), 0, 0), [], globals, heap);
    var one, two, sum := Number(w.ar, 1), Number(w.ar, 2), Num(w.ar.add(w.ar.ofInt(2), w.ar.ofInt(2)));
    PendingCode(w.ar, x);
    SmallFaithful(w.ar, p, one, two);
    Begins(w, p, globals, heap);
    Loads(w, s0, 0, p, 0, [], globals, heap, one);
    Loads(w, s0, 1, p, 1, [one], globals, heap, two);
    Dups(w, s0, 2, p, 2, [one], globals, heap, two);
    PlainStep(w, s0, 3, p, 3, [one] + [two, two], globals, heap, Operate(Add));
    Adds(w, StateAt(w, p, 4, [one] + [two, two], globals, heap), one);
    Pops1(w, s0, 4, p, 4, [one], globals, heap, sum);
    Pushes(w, s0, 5, p, 5, [one], globals, heap, GetLocal(0), one);
    Returns(w, s0, 6, p, 6, [one], globals, heap, one);
  }

  lemma Adds(w: World, s: State, below: Value)
    requires s.stack == [below] + [Number(w.ar, 2), Number(w.ar, 2)]
    ensures Execute(w, s, Operate(Add)) == Running(s.(stack := [below] + [Num(w.ar.add(w.ar.ofInt(2), w.ar.ofInt(2)))]))
  {
    assert s.stack[..1] == [below];
  }

  /** The code of a first assignment leaves the value on the stack as the new local y. It stands in the slot that the
      compiler gives y, the number of the locals in its scope, if and only if the machine has as many values for the
      locals and operands before it. So where the machine has a value for each local of the scope it is in its slot
      exactly if no operand is pending, and with operands pending the slot holds the first of them. A 256th local gets
      no slot. */
  lemma {:induction false} SlotOfFirstAssignment(w: World, x: Activation, k: nat, temps: seq<Value>, v: Value,
      st: Store, sc: Scope, y: Name)
    requires Wellformed(w, x) && At(x.items, k, [Plain(Dup)]) && y !in sc.names
    ensures IndexOf(sc.Declare(y).names, y) == if |sc.names| == LOCALS_MAX then None else Some(|sc.names|)
    ensures var o, slot := Step(w, Conf(w, x, Offset(x.items, k), temps + [v], st)), |x.below| + |sc.names|;
            && o.Running? && |o.s.stack| == |x.below| + |st.env| + |temps| + 2 && o.s.stack[|o.s.stack| - 2] == v
            && (slot == |o.s.stack| - 2 <==> |st.env| + |temps| == |sc.names|)
            && (|st.env| == |sc.names| && temps != [] ==> o.s.stack[slot] == temps[0])
  {
    hide Wellformed, Offset, Step, Decode, ChunkOf;
    NewName(sc.names, y);
    StepPlain(w, x, k, Dup, temps + [v], st);
    var b := x.below + ValuesOf(st.env);
    assert (b + (temps + [v]))[|b|] == (temps + [v])[0];
  }

  lemma {:induction false} NewName(names: seq<Name>, y: Name)
    requires y !in names
    ensures IndexOf(names + [y], y) == Some(|names|)
  {
    if names != [] {
      NewName(names[1..], y);
      assert (names + [y])[1..] == names[1..] + [y];
    }
  }
}

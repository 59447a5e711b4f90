/**
 The single-pass compiler of src/compiler.c: methods that append bytes and constants to a chunk, emit jumps
 with placeholder operands and patch them in place. Each is proved to produce the listing of Codegen.
 */
module Compiler {
  import opened Syntax
  import opened Arithmetic
  import opened Values
  import opened Bytecode
  import opened Assembly
  import opened Codegen
  import opened Operands
  import opened Patching

  // ----- what the compiler accepts -----

  predicate AcceptsE(e: Expr)
    decreases e
  {
    match e
    case Fn(f) => |f.params| <= LOCALS_MAX && AcceptsS(f.code, false)
    case Array(items) => AcceptsAll(items)
    case MapLit(items) => AcceptsAll(items)
    case Subscript(t, i) => AcceptsE(t) && AcceptsE(i)
    case Slice(t, from, to) => AcceptsE(t) && AcceptsO(from) && AcceptsO(to)
    case Member(t, _) => AcceptsE(t)
    case Assign(_, t, v) => (t.Ident? || t.Subscript? || t.Member?) && AcceptsE(t) && AcceptsE(v)
    case Unary(_, e1) => AcceptsE(e1)
    case Binary(_, l, r) => AcceptsE(l) && AcceptsE(r)
    case Call(callee, args) => |args| <= 255 && AcceptsE(callee) && AcceptsAll(args)
    case _ => true
  }

  predicate AcceptsO(e: Option<Expr>)
    decreases e
  {
    e.Some? ==> AcceptsE(e.value)
  }

  predicate AcceptsAll(es: seq<Expr>)
    decreases es
  {
    forall i | 0 <= i < |es| :: AcceptsE(es[i])
  }

  // A break or continue needs a loop around it in the same function.
  predicate AcceptsS(s: Stmt, inside: bool)
    decreases s
  {
    match s
    case Block(body) => forall i | 0 <= i < |body| :: AcceptsS(body[i], inside)
    case Return(e) => AcceptsE(e)
    case While(cond, body) => AcceptsE(cond) && AcceptsS(body, true)
    case If(cond, a, b) => AcceptsE(cond) && AcceptsS(a, inside) && (b.Some? ==> AcceptsS(b.value, inside))
    case Break => inside
    case Continue => inside
    case ExprStmt(e) => AcceptsE(e)
  }

  // ----- the function literals of a program -----

  function FunctionsE(e: Expr): set<Function>
    decreases e
  {
    match e
    case Fn(f) => {f} + FunctionsS(f.code)
    case Array(items) => FunctionsAll(items)
    case MapLit(items) => FunctionsAll(items)
    case Subscript(t, i) => FunctionsE(t) + FunctionsE(i)
    case Slice(t, from, to) => FunctionsE(t) + FunctionsO(from) + FunctionsO(to)
    case Member(t, _) => FunctionsE(t)
    case Assign(_, t, v) => FunctionsE(t) + FunctionsE(v)
    case Unary(_, e1) => FunctionsE(e1)
    case Binary(_, l, r) => FunctionsE(l) + FunctionsE(r)
    case Call(callee, args) => FunctionsE(callee) + FunctionsAll(args)
    case _ => {}
  }

  function FunctionsO(e: Option<Expr>): set<Function>
    decreases e
  {
    if e.Some? then FunctionsE(e.value) else {}
  }

  function FunctionsAll(es: seq<Expr>): set<Function>
    decreases es
  {
    set i, f | 0 <= i < |es| && f in FunctionsE(es[i]) :: f
  }

  function FunctionsS(s: Stmt): set<Function>
    decreases s
  {
    match s
    case Block(body) => FunctionsBody(body)
    case Return(e) => FunctionsE(e)
    case While(cond, body) => FunctionsE(cond) + FunctionsS(body)
    case If(cond, a, b) => FunctionsE(cond) + FunctionsS(a) + if b.Some? then FunctionsS(b.value) else {}
    case ExprStmt(e) => FunctionsE(e)
    case _ => {}
  }

  function FunctionsBody(body: seq<Stmt>): set<Function>
    decreases body
  {
    set i, f | 0 <= i < |body| && f in FunctionsS(body[i]) :: f
  }

  lemma {:induction false} FunctionsAllNext(es: seq<Expr>, i: nat)
    requires i < |es|
    ensures FunctionsAll(es[..i + 1]) == FunctionsAll(es[..i]) + FunctionsE(es[i])
  {
    hide FunctionsE;
    var shorter, longer := es[..i], es[..i + 1];
    forall f | f in FunctionsAll(longer) ensures f in FunctionsAll(shorter) + FunctionsE(es[i]) {
      var j :| 0 <= j < |longer| && f in FunctionsE(longer[j]);
      assert j < i ==> shorter[j] == longer[j];
    }
    forall f | f in FunctionsAll(shorter) ensures f in FunctionsAll(longer) {
      var j :| 0 <= j < |shorter| && f in FunctionsE(shorter[j]);
      assert shorter[j] == longer[j];
    }
    forall f | f in FunctionsE(es[i]) ensures f in FunctionsAll(longer) {
      assert longer[i] == es[i];
    }
  }

  lemma {:induction false} FunctionsBodyNext(body: seq<Stmt>, i: nat)
    requires i < |body|
    ensures FunctionsBody(body[..i + 1]) == FunctionsBody(body[..i]) + FunctionsS(body[i])
  {
    hide FunctionsS;
    var shorter, longer := body[..i], body[..i + 1];
    forall f | f in FunctionsBody(longer) ensures f in FunctionsBody(shorter) + FunctionsS(body[i]) {
      var j :| 0 <= j < |longer| && f in FunctionsS(longer[j]);
      assert j < i ==> shorter[j] == longer[j];
    }
    forall f | f in FunctionsBody(shorter) ensures f in FunctionsBody(longer) {
      var j :| 0 <= j < |shorter| && f in FunctionsS(shorter[j]);
      assert shorter[j] == longer[j];
    }
    forall f | f in FunctionsS(body[i]) ensures f in FunctionsBody(longer) {
      assert longer[i] == body[i];
    }
  }

  // ----- listings, one construct at a time -----

  lemma PutOne(ar: Arith, c: Chunk, it: Item)
    ensures Assemble(ar, c, [it]) == PutItem(ar, c, it)
  {
    assert [it][1..] == [];
  }

  lemma {:induction false} CodeAllLast(ar: Arith, sc: Scope, es: seq<Expr>, e: Expr)
    ensures CodeAll(ar, sc, es + [e]) == CodeAll(ar, sc, es) + CodeE(ar, ScopeAll(sc, es), e)
    ensures ScopeAll(sc, es + [e]) == ScopeE(ScopeAll(sc, es), e)
    decreases |es|
  {
    hide CodeE, ScopeE;
    if es == [] {
      assert [e][1..] == [];
    } else {
      CodeAllLast(ar, ScopeE(sc, es[0]), es[1..], e);
      assert (es + [e])[1..] == es[1..] + [e];
    }
  }

  lemma {:induction false} CodeBodyLast(ar: Arith, sc: Scope, body: seq<Stmt>, s: Stmt)
    ensures CodeBody(ar, sc, body + [s]) == CodeBody(ar, sc, body) + CodeS(ar, ScopeBody(sc, body), s)
    ensures ScopeBody(sc, body + [s]) == ScopeS(ScopeBody(sc, body), s)
    decreases |body|
  {
    hide CodeS, ScopeS;
    if body == [] {
      assert [s][1..] == [];
    } else {
      CodeBodyLast(ar, ScopeS(sc, body[0]), body[1..], s);
      assert (body + [s])[1..] == body[1..] + [s];
    }
  }

  // ----- the function objects made so far -----

  class Functions {
    var chunks: map<Function, Chunk>

    constructor ()
      ensures chunks == map[]
    {
      chunks := map[];
    }

    // Every function object holds the code of its function.
    ghost predicate Compiled(ar: Arith)
      reads this
    {
      forall f | f in chunks :: AcceptsE(Fn(f)) && chunks[f] == ChunkOf(ar, FunctionCode(ar, f))
    }
  }

  class Compiler {
    const ar: Arith
    const fns: Functions
    const top: bool
    var bytes: seq<Byte>
    var constants: seq<Value>
    var breaks: seq<nat>
    var start: nat
    var inside: bool
    var locals: seq<Name>

    constructor (ar: Arith, fns: Functions, top: bool)
      requires fns.Compiled(ar)
      ensures this.ar == ar && this.fns == fns && this.top == top
      ensures Code() == EMPTY && Sc() == Scope(top, []) && !inside && breaks == []
      ensures Valid()
    {
      hide ChunkOf, FunctionCode;
      this.ar, this.fns, this.top := ar, fns, top;
      bytes, constants, breaks, start, inside, locals := [], [], [], 0, false, [];
    }

    function Code(): Chunk
      reads this
    {
      Chunk(bytes, constants)
    }

    function Sc(): Scope
      reads this
    {
      Scope(top, locals)
    }

    // The functions that have an object.
    function Made(): set<Function>
      reads fns
    {
      fns.chunks.Keys
    }

    ghost predicate Valid()
      reads this, fns
    {
      && start <= |bytes| && |locals| <= LOCALS_MAX
      && (forall h | h in breaks :: h + 2 <= |bytes|)
      && (!inside ==> breaks == [])
      && fns.Compiled(ar)
    }

    // ----- bytes -----

    method AddByte(b: Byte)
      modifies this`bytes
      ensures bytes == old(bytes) + [b]
    {
      bytes := bytes + [b];
    }

    method EmitShort(n: Short)
      modifies this`bytes
      ensures bytes == old(bytes) + ShortBytes(n)
    {
      AddByte(n / 0x100);
      AddByte(n % 0x100);
    }

    method EmitWord(n: Word)
      modifies this`bytes
      ensures bytes == old(bytes) + WordBytes(n)
    {
      AddByte(n / 0x100_0000);
      AddByte(n / 0x1_0000 % 0x100);
      AddByte(n / 0x100 % 0x100);
      AddByte(n % 0x100);
    }

    // An instruction without a constant: its opcode, then its operands.
    method Emit(i: Instr)
      modifies this`bytes
      ensures old(bytes) <= bytes && Code() == Assemble(ar, old(Code()), [Plain(i)])
    {
      var e := Encode(i);
      var k := 0;
      while k < |e|
        invariant k <= |e| && bytes == old(bytes) + e[..k]
      {
        AddByte(e[k]);
        k := k + 1;
      }
      assert e[..k] == e;
      PutOne(ar, old(Code()), Plain(i));
    }

    // chunk_add_constant.
    method AddConstant(v: Value) returns (k: nat)
      modifies this`constants
      ensures k == FindConstant(ar, old(constants), v)
      ensures constants == Assembly.AddConstant(ar, old(constants), v)
    {
      k := 0;
      while k < |constants|
        invariant k <= |constants|
        invariant FindConstant(ar, constants, v) == k + FindConstant(ar, constants[k..], v)
      {
        if SameConstant(ar, constants[k], v) {
          return;
        }
        assert constants[k..][1..] == constants[k + 1..];
        k := k + 1;
      }
      constants := constants + [v];
    }

    method EmitConstant(v: Value)
      modifies this`bytes, this`constants
      ensures constants == Assembly.AddConstant(ar, old(constants), v)
      ensures bytes == old(bytes) + ShortBytes(Short16(FindConstant(ar, old(constants), v)))
    {
      var k := AddConstant(v);
      EmitShort(Short16(k));
    }

    // An instruction that refers to a constant.
    method EmitWithConstant(use: Use, v: Value)
      modifies this`bytes, this`constants
      ensures old(bytes) <= bytes && Code() == Assemble(ar, old(Code()), [WithConstant(use, v)])
    {
      ghost var c0 := Code();
      match use {
        case Load => AddByte(6);
        case ReadGlobal => AddByte(14);
        case WriteGlobal => AddByte(15);
        case UpdateGlobal(op) =>
          AddByte(16);
          AddByte(op);
        case Close => AddByte(22);
      }
      EmitConstant(v);
      PutOne(ar, c0, WithConstant(use, v));
      ConstantBytes(c0.bytes, use, Short16(FindConstant(ar, c0.constants, v)));
    }

    method PushConstant(v: Value)
      modifies this`bytes, this`constants
      ensures old(bytes) <= bytes && Code() == Assemble(ar, old(Code()), PushCode(v))
    {
      EmitWithConstant(Load, v);
    }

    // ----- names -----

    method FindLocal(x: Name) returns (r: Option<nat>)
      ensures r == IndexOf(locals, x)
    {
      var i := 0;
      while i < |locals|
        invariant i <= |locals| && x !in locals[..i]
      {
        if locals[i] == x {
          return Some(i);
        }
        assert locals[..i + 1] == locals[..i] + [locals[i]];
        i := i + 1;
      }
      assert locals[..i] == locals;
      return None;
    }

    method AddLocal(x: Name)
      modifies this`locals
      ensures Sc() == old(Sc()).Declare(x)
    {
      if |locals| == LOCALS_MAX {
        return;
      }
      locals := locals + [x];
    }

    method CompileIdentifier(x: Name)
      requires |locals| <= LOCALS_MAX
      modifies this`bytes, this`constants
      ensures old(bytes) <= bytes && Code() == Assemble(ar, old(Code()), NameCode(Sc(), x))
    {
      if x == NULL_NAME {
        Emit(PushNull);
      } else if x == TRUE_NAME {
        Emit(PushTrue);
      } else if x == FALSE_NAME {
        Emit(PushFalse);
      } else {
        var r := FindLocal(x);
        match r {
          case Some(i) => Emit(GetLocal(i));
          case None => EmitWithConstant(ReadGlobal, Text(x));
        }
      }
    }


    // ----- expressions -----

    method CompileExpr(e: Expr) returns (ok: bool)
      requires Valid()
      modifies this, fns
      ensures ok == AcceptsE(e)
      ensures ok ==> Made() == old(Made()) + FunctionsE(e)
      ensures ok ==>
          Valid() && Code() == Assemble(ar, old(Code()), CodeE(ar, old(Sc()), e))
          && Sc() == ScopeE(old(Sc()), e)
      ensures ok ==> start == old(start) && inside == old(inside) && breaks == old(breaks)
      decreases e, 2
    {
      hide Assemble, Functions.Compiled;
      match e {
        case Ident(x) =>
          CompileIdentifier(x);
          ok := true;
        case Str(s) =>
          PushConstant(Text(s));
          ok := true;
        case Int(n) =>
          PushConstant(Num(ar.ofInt(n)));
          ok := true;
        case Float(d) =>
          PushConstant(Num(d));
          ok := true;
        case Fn(f) => ok := CompileFunction(f);
        case Array(items) => ok := CompileItems(items, MakeArray(|items| % 0x1_0000_0000));
        case MapLit(items) => ok := CompileItems(items, MakeMap(|items| / 2 % 0x1_0000_0000));
        case Subscript(t, i) => ok := CompileSubscript(t, i);
        case Slice(t, from, to) => ok := CompileSlice(t, from, to);
        case Member(t, x) => ok := CompileMember(t, x);
        case Assign(op, t, v) => ok := CompileAssign(op, t, v);
        case Unary(op, e1) => ok := CompileUnary(op, e1);
        case Binary(op, l, r) => ok := CompileBinary(op, l, r);
        case Call(callee, args) => ok := CompileCall(callee, args);
      }
    }

    method CompileFunction(f: Function) returns (ok: bool)
      requires Valid()
      modifies this, fns
      ensures ok == AcceptsE(Fn(f))
      ensures ok ==> Made() == old(Made()) + FunctionsE(Fn(f))
      ensures ok ==> Valid() && Code() == Assemble(ar, old(Code()), CodeE(ar, old(Sc()), Fn(f))) && Sc() == old(Sc())
      ensures ok ==> start == old(start) && inside == old(inside) && breaks == old(breaks) && f in fns.chunks
      decreases f, 4
    {
      AcceptsFunction(f);
      hide Assemble, CodeS, AcceptsS, AcceptsE, ChunkOf, FunctionCode;
      if |f.params| > 255 {
        return false;
      }
      var chunk: Chunk;
      ok, chunk := CompileBody(f);
      if !ok {
        return;
      }
      fns.chunks := fns.chunks[f := chunk];
      EmitWithConstant(Close, FunctionObj(f, 0));
    }

    // The code of a function, by a compiler of its own.
    method CompileBody(f: Function) returns (ok: bool, chunk: Chunk)
      requires fns.Compiled(ar) && |f.params| <= 255
      modifies fns
      ensures ok == AcceptsS(f.code, false)
      ensures ok ==> Made() == old(Made()) + FunctionsS(f.code)
      ensures ok ==> fns.Compiled(ar) && chunk == ChunkOf(ar, FunctionCode(ar, f))
      decreases f, 3
    {
      hide Assemble, CodeS, AcceptsS, Functions.Compiled;
      chunk := EMPTY;
      var fc := new Compiler(ar, fns, false);
      var i := 0;
      while i < |f.params|
        invariant i <= |f.params| && fc.locals == f.params[..i] && fc.Valid() && fc.Code() == EMPTY && !fc.inside
            && fc.breaks == []
        invariant Made() == old(Made())
      {
        fc.AddLocal(f.params[i]);
        i := i + 1;
      }
      assert f.params[..i] == f.params;
      ok := fc.CompileStmt(f.code);
      if !ok {
        return;
      }
      ghost var body := CodeS(ar, Scope(false, f.params), f.code);
      HoleFreeS(ar, Scope(false, f.params), f.code);
      Closed(body, 0, 0, 0);
      fc.Emit(PushNull);
      fc.Emit(ReturnOp);
      AssembleThree(ar, EMPTY, body, [Plain(PushNull)], [Plain(ReturnOp)]);
      assert body + [Plain(PushNull)] + [Plain(ReturnOp)] == FunctionCode(ar, f);
      chunk := fc.Code();
    }

    method CompileAll(es: seq<Expr>) returns (ok: bool)
      requires Valid()
      modifies this, fns
      ensures ok == AcceptsAll(es)
      ensures ok ==> Made() == old(Made()) + FunctionsAll(es)
      ensures ok ==>
          Valid() && Code() == Assemble(ar, old(Code()), CodeAll(ar, old(Sc()), es))
          && Sc() == ScopeAll(old(Sc()), es)
      ensures ok ==> start == old(start) && inside == old(inside) && breaks == old(breaks)
      decreases es, 0
    {
      hide Assemble, CodeE, ScopeE, Functions.Compiled, AcceptsE, FunctionsE;
      ghost var c0, sc := Code(), Sc();
      var i := 0;
      assert es[..0] == [];
      AssembleNone(ar, c0);
      while i < |es|
        invariant i <= |es| && Valid() && (forall j | 0 <= j < i :: AcceptsE(es[j]))
        invariant Made() == old(Made()) + FunctionsAll(es[..i])
        invariant Code() == Assemble(ar, c0, CodeAll(ar, sc, es[..i])) && Sc() == ScopeAll(sc, es[..i])
        invariant start == old(start) && inside == old(inside) && breaks == old(breaks)
      {
        ok := CompileExpr(es[i]);
        if !ok {
          return;
        }
        assert es[..i + 1] == es[..i] + [es[i]];
        CodeAllLast(ar, sc, es[..i], es[i]);
        FunctionsAllNext(es, i);
        AssembleAppend(ar, c0, CodeAll(ar, sc, es[..i]), CodeE(ar, ScopeAll(sc, es[..i]), es[i]));
        i := i + 1;
      }
      assert es[..i] == es;
      ok := true;
    }

    // compile_array and compile_map.
    method CompileItems(items: seq<Expr>, i: Instr) returns (ok: bool)
      requires Valid()
      modifies this, fns
      ensures ok == AcceptsAll(items)
      ensures ok ==> Made() == old(Made()) + FunctionsAll(items)
      ensures ok ==> Valid() && Code() == Assemble(ar, old(Code()), CodeAll(ar, old(Sc()), items) + [Plain(i)])
      ensures ok ==> Sc() == ScopeAll(old(Sc()), items)
      ensures ok ==> start == old(start) && inside == old(inside) && breaks == old(breaks)
      decreases items, 1
    {
      hide Assemble, CodeAll, ScopeAll, AcceptsAll, Functions.Compiled;
      ghost var c0, sc := Code(), Sc();
      ok := CompileAll(items);
      if ok {
        Emit(i);
        AssembleAppend(ar, c0, CodeAll(ar, sc, items), [Plain(i)]);
      }
    }

    method CompileSubscript(t: Expr, i: Expr) returns (ok: bool)
      requires Valid()
      modifies this, fns
      ensures ok == AcceptsE(Subscript(t, i))
      ensures ok ==> Made() == old(Made()) + FunctionsE(Subscript(t, i))
      ensures ok ==> Valid() && Code() == Assemble(ar, old(Code()), CodeE(ar, old(Sc()), Subscript(t, i)))
      ensures ok ==> Sc() == ScopeE(old(Sc()), Subscript(t, i))
      ensures ok ==> start == old(start) && inside == old(inside) && breaks == old(breaks)
      decreases Subscript(t, i), 0
    {
      SubscriptListing(ar, Sc(), t, i);
      hide Assemble, Functions.Compiled, CodeE, ScopeE, AcceptsE, FunctionsE;
      ghost var c0, sc := Code(), Sc();
      ok := CompileExpr(i);
      if !ok {
        return;
      }
      ok := CompileExpr(t);
      if !ok {
        return;
      }
      Emit(GetSub);
      AssembleThree(ar, c0, CodeE(ar, sc, i), CodeE(ar, ScopeE(sc, i), t), [Plain(GetSub)]);
    }

    method CompileOption(e: Option<Expr>) returns (ok: bool)
      requires Valid()
      modifies this, fns
      ensures ok == AcceptsO(e)
      ensures ok ==> Made() == old(Made()) + FunctionsO(e)
      ensures ok ==>
          Valid() && Code() == Assemble(ar, old(Code()), CodeO(ar, old(Sc()), e))
          && Sc() == ScopeO(old(Sc()), e)
      ensures ok ==> start == old(start) && inside == old(inside) && breaks == old(breaks)
      decreases e, 0
    {
      hide CodeE, ScopeE, AcceptsE, Functions.Compiled;
      ok := true;
      if e.Some? {
        ok := CompileExpr(e.value);
      }
    }

    method CompileSlice(t: Expr, from: Option<Expr>, to: Option<Expr>) returns (ok: bool)
      requires Valid()
      modifies this, fns
      ensures ok == AcceptsE(Slice(t, from, to))
      ensures ok ==> Made() == old(Made()) + FunctionsE(Slice(t, from, to))
      ensures ok ==> Valid() && Code() == Assemble(ar, old(Code()), CodeE(ar, old(Sc()), Slice(t, from, to)))
      ensures ok ==> Sc() == ScopeE(old(Sc()), Slice(t, from, to))
      ensures ok ==> start == old(start) && inside == old(inside) && breaks == old(breaks)
      decreases Slice(t, from, to), 0
    {
      SliceListing(ar, Sc(), t, from, to);
      hide Assemble, CodeE, ScopeE, AcceptsE, FunctionsE, CodeO, ScopeO, AcceptsO, FunctionsO, Functions.Compiled;
      ghost var c0, sc := Code(), Sc();
      ok := CompileOption(to);
      if !ok {
        return;
      }
      ok := CompileOption(from);
      if !ok {
        return;
      }
      ok := CompileExpr(t);
      if !ok {
        return;
      }
      var i: Instr;
      if from == None {
        if to == None {
          i := CopyBySlicing;
        } else {
          i := MakeSliceUnder;
        }
      } else {
        if to == None {
          i := MakeSliceAbove;
        } else {
          i := MakeSlice;
        }
      }
      Emit(i);
      ghost var sc1 := ScopeO(sc, to);
      AssembleFour(ar, c0, CodeO(ar, sc, to), CodeO(ar, sc1, from), CodeE(ar, ScopeO(sc1, from), t), [Plain(i)]);
    }

    method CompileMember(t: Expr, x: Name) returns (ok: bool)
      requires Valid()
      modifies this, fns
      ensures ok == AcceptsE(Member(t, x))
      ensures ok ==> Made() == old(Made()) + FunctionsE(Member(t, x))
      ensures ok ==> Valid() && Code() == Assemble(ar, old(Code()), CodeE(ar, old(Sc()), Member(t, x)))
      ensures ok ==> Sc() == ScopeE(old(Sc()), Member(t, x))
      ensures ok ==> start == old(start) && inside == old(inside) && breaks == old(breaks)
      decreases Member(t, x), 0
    {
      hide Assemble, Functions.Compiled;
      ghost var c0, sc := Code(), Sc();
      PushConstant(Text(x));
      ok := CompileExpr(t);
      if !ok {
        return;
      }
      Emit(GetSub);
      AssembleThree(ar, c0, PushCode(Text(x)), CodeE(ar, sc, t), [Plain(GetSub)]);
    }

    method CompileAssign(op: Option<BinaryOp>, t: Expr, v: Expr) returns (ok: bool)
      requires Valid()
      modifies this, fns
      ensures ok == AcceptsE(Assign(op, t, v))
      ensures ok ==> Made() == old(Made()) + FunctionsE(Assign(op, t, v))
      ensures ok ==> Valid() && Code() == Assemble(ar, old(Code()), CodeE(ar, old(Sc()), Assign(op, t, v)))
      ensures ok ==> Sc() == ScopeE(old(Sc()), Assign(op, t, v))
      ensures ok ==> start == old(start) && inside == old(inside) && breaks == old(breaks)
      decreases Assign(op, t, v), 1
    {
      hide Assemble, Functions.Compiled;
      match t {
        case Ident(x) => ok := CompileStore(op, x, v);
        case Subscript(t1, i) => ok := CompileStoreSubscript(op, t1, i, v);
        case Member(t1, x) => ok := CompileStoreMember(op, t1, x, v);
        case _ => ok := false;
      }
    }

    method CompileStoreSubscript(op: Option<BinaryOp>, t: Expr, i: Expr, v: Expr) returns (ok: bool)
      requires Valid()
      modifies this, fns
      ensures ok == AcceptsE(Assign(op, Subscript(t, i), v))
      ensures ok ==> Made() == old(Made()) + FunctionsE(Assign(op, Subscript(t, i), v))
      ensures ok ==> Valid() && Code() == Assemble(ar, old(Code()),
          CodeE(ar, old(Sc()), Assign(op, Subscript(t, i), v)))
      ensures ok ==> Sc() == ScopeE(old(Sc()), Assign(op, Subscript(t, i), v))
      ensures ok ==> start == old(start) && inside == old(inside) && breaks == old(breaks)
      decreases Assign(op, Subscript(t, i), v), 0
    {
      hide Assemble, Functions.Compiled, CodeE, ScopeE, AcceptsE, FunctionsE, StoreSubCode;
      ghost var c0, sc := Code(), Sc();
      StoreSubscriptListing(ar, sc, Assign(op, Subscript(t, i), v), ScopeE(sc, v), ScopeE(ScopeE(sc, v), i));
      AcceptsStore(op, t, i, v);
      ok := CompileExpr(v);
      if !ok {
        return;
      }
      ok := CompileExpr(i);
      if !ok {
        return;
      }
      ok := CompileExpr(t);
      if !ok {
        return;
      }
      EmitStore(op);
      ghost var sc1 := ScopeE(sc, v);
      AssembleFour(ar, c0, CodeE(ar, sc, v), CodeE(ar, sc1, i), CodeE(ar, ScopeE(sc1, i), t), StoreSubCode(op));
    }

    method CompileStoreMember(op: Option<BinaryOp>, t: Expr, x: Name, v: Expr) returns (ok: bool)
      requires Valid()
      modifies this, fns
      ensures ok == AcceptsE(Assign(op, Member(t, x), v))
      ensures ok ==> Made() == old(Made()) + FunctionsE(Assign(op, Member(t, x), v))
      ensures ok ==> Valid() && Code() == Assemble(ar, old(Code()), CodeE(ar, old(Sc()), Assign(op, Member(t, x), v)))
      ensures ok ==> Sc() == ScopeE(old(Sc()), Assign(op, Member(t, x), v))
      ensures ok ==> start == old(start) && inside == old(inside) && breaks == old(breaks)
      decreases Assign(op, Member(t, x), v), 0
    {
      hide Assemble, Functions.Compiled, CodeE, ScopeE, AcceptsE, FunctionsE, StoreSubCode;
      ghost var c0, sc := Code(), Sc();
      StoreMemberListing(ar, sc, Assign(op, Member(t, x), v), ScopeE(sc, v));
      ok := CompileExpr(v);
      if !ok {
        return;
      }
      PushConstant(Text(x));
      ok := CompileExpr(t);
      if !ok {
        return;
      }
      EmitStore(op);
      AssembleFour(ar, c0, CodeE(ar, sc, v), PushCode(Text(x)), CodeE(ar, ScopeE(sc, v), t), StoreSubCode(op));
    }

    method EmitStore(op: Option<BinaryOp>)
      modifies this`bytes
      ensures old(bytes) <= bytes && Code() == Assemble(ar, old(Code()), StoreSubCode(op))
    {
      if op.Some? {
        Emit(SetSubWithMath(OpByte(op.value)));
      } else {
        Emit(SetSub);
      }
    }

    // The identifier case of compile_assign.
    method CompileStore(op: Option<BinaryOp>, x: Name, v: Expr) returns (ok: bool)
      requires Valid()
      modifies this, fns
      ensures ok == AcceptsE(v)
      ensures ok ==> Made() == old(Made()) + FunctionsE(v)
      ensures ok ==> Valid() && Code() == Assemble(ar, old(Code()), CodeE(ar, old(Sc()), Assign(op, Ident(x), v)))
      ensures ok ==> Sc() == ScopeE(old(Sc()), Assign(op, Ident(x), v))
      ensures ok ==> start == old(start) && inside == old(inside) && breaks == old(breaks)
      decreases Assign(op, Ident(x), v), 0
    {
      hide Assemble, Functions.Compiled, CodeE, ScopeE, AcceptsE, FunctionsE, Made;
      ghost var c0, sc := Code(), Sc();
      StoreListing(ar, sc, op, x, v);
      ghost var code := CodeE(ar, ValueScope(sc, x, v), v);
      var at := FindLocal(x);
      if at.Some? {
        ok := CompileExpr(v);
        if ok {
          if op.Some? {
            Emit(SetLocalWithMath(OpByte(op.value), at.value));
          } else {
            Emit(SetLocal(at.value));
          }
          AssembleAppend(ar, c0, code, StoreNameCode(sc, x, op));
        }
        return;
      }
      if top {
        ok := CompileExpr(v);
        if ok {
          EmitWithConstant(if op.Some? then UpdateGlobal(OpByte(op.value)) else WriteGlobal, Text(x));
          AssembleAppend(ar, c0, code, StoreNameCode(sc, x, op));
        }
        return;
      }
      if v.Fn? {
        AddLocal(x);
      }
      ok := CompileExpr(v);
      if !ok {
        return;
      }
      Emit(Dup);
      if !v.Fn? {
        AddLocal(x);
      }
      AssembleAppend(ar, c0, code, StoreNameCode(sc, x, op));
    }

    method CompileUnary(op: UnaryOp, e: Expr) returns (ok: bool)
      requires Valid()
      modifies this, fns
      ensures ok == AcceptsE(Unary(op, e))
      ensures ok ==> Made() == old(Made()) + FunctionsE(Unary(op, e))
      ensures ok ==> Valid() && Code() == Assemble(ar, old(Code()), CodeE(ar, old(Sc()), Unary(op, e)))
      ensures ok ==> Sc() == ScopeE(old(Sc()), Unary(op, e))
      ensures ok ==> start == old(start) && inside == old(inside) && breaks == old(breaks)
      decreases Unary(op, e), 0
    {
      hide Assemble, Functions.Compiled;
      if op.Neg? {
        if e.Int? {
          PushConstant(Num(ar.ofInt(Wrap64(-ToInt64(e.number)))));
          return true;
        }
        if e.Float? {
          PushConstant(Num(ar.neg(e.double)));
          return true;
        }
      }
      ghost var c0, sc := Code(), Sc();
      ok := CompileExpr(e);
      if !ok {
        return;
      }
      Emit(if op.Neg? then Negate else LogicalNot);
      AssembleAppend(ar, c0, CodeE(ar, sc, e), [Plain(UnaryInstr(op))]);
    }

    method CompileCall(callee: Expr, args: seq<Expr>) returns (ok: bool)
      requires Valid()
      modifies this, fns
      ensures ok == AcceptsE(Call(callee, args))
      ensures ok ==> Made() == old(Made()) + FunctionsE(Call(callee, args))
      ensures ok ==> Valid() && Code() == Assemble(ar, old(Code()), CodeE(ar, old(Sc()), Call(callee, args)))
      ensures ok ==> Sc() == ScopeE(old(Sc()), Call(callee, args))
      ensures ok ==> start == old(start) && inside == old(inside) && breaks == old(breaks)
      decreases Call(callee, args), 0
    {
      CallListing(ar, Sc(), callee, args);
      hide Assemble, Functions.Compiled, CodeE, ScopeE, AcceptsE, FunctionsE, CodeAll, ScopeAll, AcceptsAll,
          FunctionsAll;
      if |args| > 255 {
        return false;
      }
      ghost var c0, sc := Code(), Sc();
      ok := CompileAll(args);
      if !ok {
        return;
      }
      ok := CompileExpr(callee);
      if !ok {
        return;
      }
      Emit(CallOp(|args|));
      AssembleThree(ar, c0, CodeAll(ar, sc, args), CodeE(ar, ScopeAll(sc, args), callee), [Plain(CallOp(|args|))]);
    }

    method CompileBinary(op: BinaryOp, l: Expr, r: Expr) returns (ok: bool)
      requires Valid()
      modifies this, fns
      ensures ok == AcceptsE(Binary(op, l, r))
      ensures ok ==> Made() == old(Made()) + FunctionsE(Binary(op, l, r))
      ensures ok ==> Valid() && Code() == Assemble(ar, old(Code()), CodeE(ar, old(Sc()), Binary(op, l, r)))
      ensures ok ==> Sc() == ScopeE(old(Sc()), Binary(op, l, r))
      ensures ok ==> start == old(start) && inside == old(inside) && breaks == old(breaks)
      decreases Binary(op, l, r), 0
    {
      hide Assemble, Functions.Compiled, CodeE, ScopeE, AcceptsE, FoldBinary, Folds;
      AssembleNone(ar, Code());
      BinaryListing(ar, Sc(), op, l, r);
      if IsLiteral(l) && IsLiteral(r) {
        var done := FoldConstants(op, l, r);
        if done {
          return true;
        }
      }
      ghost var c0, sc := Code(), Sc();
      ok := CompileExpr(l);
      if !ok {
        return;
      }
      ok := CompileExpr(r);
      if !ok {
        return;
      }
      Emit(Operate(op));
      AssembleThree(ar, c0, CodeE(ar, sc, l), CodeE(ar, ScopeE(sc, l), r), [Plain(Operate(op))]);
    }

    // The folding part of compile_binary.
    method FoldConstants(op: BinaryOp, l: Expr, r: Expr) returns (done: bool)
      requires IsLiteral(l) && IsLiteral(r)
      modifies this`bytes, this`constants
      ensures done == (Vanishes(op, l, r) || Folds(op, l, r)) && old(bytes) <= bytes
      ensures Code() == Assemble(ar, old(Code()), if done then CodeE(ar, Sc(), Binary(op, l, r)) else [])
    {
      AssembleNone(ar, Code());
      hide Assemble, ScopeE, FoldInt, FoldFloat;
      if l.Int? && r.Int? {
        done := FoldIntegers(op, ToInt64(l.number), ToInt64(r.number));
      } else {
        done := FoldFloats(op, LiteralDouble(ar, l), LiteralDouble(ar, r));
      }
    }

    method FoldIntegers(op: BinaryOp, a: int, b: int) returns (done: bool)
      modifies this`bytes, this`constants
      ensures done == (op.Add? || op.Sub? || op.Mul? || op.Div? || op.Mod? || op.Pow?) && old(bytes) <= bytes
      ensures Code() == Assemble(ar, old(Code()), if done
          && !(op.Mod? && b == 0) then PushCode(Num(FoldInt(ar, op, a, b))) else [])
    {
      AssembleNone(ar, Code());
      hide Assemble, TruncMod, TruncDiv, Wrap64;
      done := true;
      match op {
        case Add => PushConstant(Num(ar.ofInt(Wrap64(a + b))));
        case Sub => PushConstant(Num(ar.ofInt(Wrap64(a - b))));
        case Mul => PushConstant(Num(ar.ofInt(Wrap64(a * b))));
        case Div =>
          if b != 0 && TruncMod(a, b) == 0 {
            PushConstant(Num(ar.ofInt(TruncDiv(a, b))));
          } else {
            PushConstant(Num(ar.div(ar.ofInt(a), ar.ofInt(b))));
          }
        case Mod =>
          if b != 0 {
            PushConstant(Num(ar.ofInt(TruncMod(a, b))));
          }
        case Pow =>
          if b < 0 {
            PushConstant(Num(ar.pow(ar.ofInt(a), ar.ofInt(b))));
          } else {
            PushConstant(Num(ar.ofInt(ar.toInt(ar.pow(ar.ofInt(a), ar.ofInt(b))))));
          }
        case _ => done := false;
      }
    }

    method FoldFloats(op: BinaryOp, a: Double, b: Double) returns (done: bool)
      modifies this`bytes, this`constants
      ensures done == (op.Add? || op.Sub? || op.Mul? || op.Div? || op.Pow?) && old(bytes) <= bytes
      ensures Code() == Assemble(ar, old(Code()), if done then PushCode(Num(FoldFloat(ar, op, a, b))) else [])
    {
      AssembleNone(ar, Code());
      hide Assemble;
      done := true;
      match op {
        case Add => PushConstant(Num(ar.add(a, b)));
        case Sub => PushConstant(Num(ar.sub(a, b)));
        case Mul => PushConstant(Num(ar.mul(a, b)));
        case Div => PushConstant(Num(ar.div(a, b)));
        case Pow => PushConstant(Num(ar.pow(a, b)));
        case _ => done := false;
      }
    }

    // ----- jumps -----

    method EmitJump(opcode: Byte) returns (hole: nat)
      requires opcode == 42 || opcode == 44
      modifies this`bytes
      ensures old(bytes) <= bytes && hole == |old(bytes)| + 1 && hole + 2 == |bytes|
      ensures Code() == Assemble(ar, old(Code()),
          [Plain(if opcode == 42 then PopJumpIfFalse(PLACEHOLDER) else Jump(PLACEHOLDER))])
    {
      AddByte(opcode);
      AddByte(0xff);
      AddByte(0xff);
      hole := |bytes| - 2;
      PutOne(ar, old(Code()), Plain(if opcode == 42 then PopJumpIfFalse(PLACEHOLDER) else Jump(PLACEHOLDER)));
    }

    method PatchJump(hole: nat)
      requires hole + 2 <= |bytes|
      modifies this`bytes
      ensures bytes == PatchTo(old(bytes), hole, |old(bytes)|)
    {
      var jump := |bytes| - hole - 2;
      bytes := bytes[hole := Short16(jump) / 0x100];
      bytes := bytes[hole + 1 := Short16(jump) % 0x100];
    }

    method EmitLoop()
      requires start <= |bytes|
      modifies this`bytes
      ensures old(bytes) <= bytes
      ensures Code() == Assemble(ar, old(Code()), [Plain(Loop(Short16(old(|bytes| - start) + 3)))])
    {
      AddByte(45);
      var offset := |bytes| - start + 2;
      EmitShort(Short16(offset));
      PutOne(ar, old(Code()), Plain(Loop(Short16(old(|bytes| - start) + 3))));
    }

    // ----- statements -----

    /** The code of a statement with its continues in place; its breaks stand as placeholders, recorded for
        the loop around it to patch. */
    method CompileStmt(s: Stmt) returns (ok: bool)
      requires Valid()
      modifies this, fns
      ensures ok == AcceptsS(s, old(inside))
      ensures ok ==> Made() == old(Made()) + FunctionsS(s)
      ensures ok ==> Valid() && Sc() == ScopeS(old(Sc()), s) && start == old(start) && inside == old(inside)
      ensures ok ==> Code() == Assemble(ar, old(Code()), Continues(CodeS(ar, old(Sc()), s), old(|bytes| - start)))
      ensures ok ==> breaks == old(breaks) + HolesAt(CodeS(ar, old(Sc()), s), old(|bytes|))
      decreases s, 2
    {
      hide Assemble, CodeS, AcceptsS, ScopeS, Functions.Compiled;
      match s {
        case Block(body) => ok := CompileBlock(body);
        case Return(e) => ok := CompileSimple(s, e, ReturnOp);
        case While(cond, body) => ok := CompileWhile(cond, body);
        case If(cond, a, b) => ok := CompileIf(cond, a, b);
        case Break => ok := CompileBreak();
        case Continue => ok := CompileContinue();
        case ExprStmt(e) => ok := CompileSimple(s, e, Pop);
      }
    }

    // compile_return and the expression case of compile_stmt.
    method CompileSimple(s: Stmt, e: Expr, last: Instr) returns (ok: bool)
      requires (s == Return(e) && last == ReturnOp) || (s == ExprStmt(e) && last == Pop)
      requires Valid()
      modifies this, fns
      ensures ok == AcceptsS(s, old(inside))
      ensures ok ==> Made() == old(Made()) + FunctionsS(s)
      ensures ok ==> Valid() && Sc() == ScopeS(old(Sc()), s) && start == old(start) && inside == old(inside)
      ensures ok ==> Code() == Assemble(ar, old(Code()), Continues(CodeS(ar, old(Sc()), s), old(|bytes| - start)))
      ensures ok ==> breaks == old(breaks) + HolesAt(CodeS(ar, old(Sc()), s), old(|bytes|))
      decreases s, 1
    {
      hide Assemble, Functions.Compiled, CodeE, AcceptsE, ScopeE;
      ghost var c0, sc, back, base := Code(), Sc(), |bytes| - start, |bytes|;
      ok := CompileExpr(e);
      if !ok {
        return;
      }
      Emit(last);
      AssembleAppend(ar, c0, CodeE(ar, sc, e), [Plain(last)]);
      HoleFreeE(ar, sc, e);
      HoleFreePlain(last);
      HoleFreeAppend(CodeE(ar, sc, e), [Plain(last)]);
      Closed(CodeE(ar, sc, e) + [Plain(last)], back, base, 0);
    }

    method CompileBreak() returns (ok: bool)
      requires Valid()
      modifies this, fns
      ensures ok == AcceptsS(Break, old(inside))
      ensures ok ==> Made() == old(Made()) + FunctionsS(Break)
      ensures ok ==> Valid() && Sc() == ScopeS(old(Sc()), Break) && start == old(start) && inside == old(inside)
      ensures ok ==> Code() == Assemble(ar, old(Code()), Continues(CodeS(ar, old(Sc()), Break), old(|bytes| - start)))
      ensures ok ==> breaks == old(breaks) + HolesAt(CodeS(ar, old(Sc()), Break), old(|bytes|))
      decreases Break, 1
    {
      hide Assemble, Functions.Compiled, CodeS, ScopeS, AcceptsS, Continues, HolesAt;
      ghost var c0, sc, back := Code(), Sc(), |bytes| - start;
      JumpListing(ar, sc, Break, inside);
      if !inside {
        return false;
      }
      HoleAlone(ar, c0, back);
      var hole := EmitJump(44);
      breaks := breaks + [hole];
      ok := true;
    }

    method CompileContinue() returns (ok: bool)
      requires Valid()
      modifies this, fns
      ensures ok == AcceptsS(Continue, old(inside))
      ensures ok ==> Made() == old(Made()) + FunctionsS(Continue)
      ensures ok ==> Valid() && Sc() == ScopeS(old(Sc()), Continue) && start == old(start) && inside == old(inside)
      ensures ok ==> Code() == Assemble(ar, old(Code()),
          Continues(CodeS(ar, old(Sc()), Continue), old(|bytes| - start)))
      ensures ok ==> breaks == old(breaks) + HolesAt(CodeS(ar, old(Sc()), Continue), old(|bytes|))
      decreases Continue, 1
    {
      hide Assemble, Functions.Compiled, CodeS, ScopeS, AcceptsS, Continues, HolesAt, Short16;
      ghost var c0, sc, back := Code(), Sc(), |bytes| - start;
      JumpListing(ar, sc, Continue, inside);
      if !inside {
        return false;
      }
      HoleAlone(ar, c0, back);
      EmitLoop();
      assert Code() == Assemble(ar, c0, Continues(CodeS(ar, sc, Continue), back));
      assert HolesAt(CodeS(ar, sc, Continue), |c0.bytes|) == [];
      ok := true;
    }

    method CompileBlock(body: seq<Stmt>) returns (ok: bool)
      requires Valid()
      modifies this, fns
      ensures ok == AcceptsS(Block(body), old(inside))
      ensures ok ==> Made() == old(Made()) + FunctionsS(Block(body))
      ensures ok ==> Valid() && Sc() == ScopeS(old(Sc()), Block(body)) && start == old(start) && inside == old(inside)
      ensures ok ==> Code() == Assemble(ar, old(Code()),
          Continues(CodeS(ar, old(Sc()), Block(body)), old(|bytes| - start)))
      ensures ok ==> breaks == old(breaks) + HolesAt(CodeS(ar, old(Sc()), Block(body)), old(|bytes|))
      decreases Block(body), 1
    {
      hide Assemble, Functions.Compiled, CodeS, AcceptsS, ScopeS, Continues, HolesAt, CodeBody, ScopeBody, Pops;
      ghost var c0, sc, back, base, b0 := Code(), Sc(), |bytes| - start, |bytes|, breaks;
      var prev := |locals|;
      ok := CompileAllStmts(body);
      if !ok {
        return;
      }
      ghost var c1, code := Code(), CodeBody(ar, sc, body);
      var i := prev;
      AssembleNone(ar, c1);
      NoPops();
      while i < |locals|
        modifies this`bytes
        invariant prev <= i <= |locals| && Code() == Assemble(ar, c1, Pops(i - prev)) && c1.bytes <= bytes
      {
        Emit(Pop);
        MorePops(i - prev);
        AssembleAppend(ar, c1, Pops(i - prev), [Plain(Pop)]);
        i := i + 1;
      }
      locals := locals[..prev];
      HoleFreePops(i - prev);
      Closed(Pops(i - prev), back + Size(code), base + Size(code), 0);
      Follow(ar, c0, code, Pops(i - prev), back, back + Size(code), base + Size(code));
      BlockCode(ar, sc, body);
    }

    method CompileAllStmts(body: seq<Stmt>) returns (ok: bool)
      requires Valid()
      modifies this, fns
      ensures ok == AcceptsS(Block(body), old(inside))
      ensures ok ==> Made() == old(Made()) + FunctionsBody(body)
      ensures ok ==> Valid() && Sc() == ScopeBody(old(Sc()), body) && start == old(start) && inside == old(inside)
      ensures ok ==> Code() == Assemble(ar, old(Code()), Continues(CodeBody(ar, old(Sc()), body), old(|bytes| - start)))
      ensures ok ==> breaks == old(breaks) + HolesAt(CodeBody(ar, old(Sc()), body), old(|bytes|))
      decreases Block(body), 0
    {
      ghost var c0, sc, from, b0, holes := Code(), Sc(), start, breaks, [];
      AcceptsBlock(body, inside);
      NoStmts(ar, c0, sc, body, from);
      hide Assemble, Functions.Compiled, CodeS, AcceptsS, ScopeS, Continues, HolesAt, CodeBody, ScopeBody, StandsAfter,
          FunctionsS;
      var i := 0;
      assert b0 + holes == b0;
      while i < |body|
        invariant i <= |body| && Valid() && (forall j | 0 <= j < i :: AcceptsS(body[j], old(inside)))
        invariant Made() == old(Made()) + FunctionsBody(body[..i])
        invariant start == from && inside == old(inside) && breaks == b0 + holes
        invariant StandsAfter(ar, c0, sc, body[..i], from, Code(), Sc(), holes)
      {
        ghost var c, sc1 := Code(), Sc();
        ok := CompileStmt(body[i]);
        if !ok {
          return;
        }
        StandsNext(ar, c0, sc, body, i, from, c, sc1, holes);
        FunctionsBodyNext(body, i);
        ghost var more := HolesAt(CodeS(ar, sc1, body[i]), |c.bytes|);
        assert b0 + (holes + more) == (b0 + holes) + more;
        holes := holes + more;
        i := i + 1;
      }
      assert body[..i] == body;
      StandsAll(ar, c0, sc, body, from, Code(), Sc(), holes);
      ok := true;
    }

    method CompileIf(cond: Expr, a: Stmt, b: Option<Stmt>) returns (ok: bool)
      requires Valid()
      modifies this, fns
      ensures ok == AcceptsS(If(cond, a, b), old(inside))
      ensures ok ==> Made() == old(Made()) + FunctionsS(If(cond, a, b))
      ensures ok ==>
          Valid() && Sc() == ScopeS(old(Sc()), If(cond, a, b)) && start == old(start)
          && inside == old(inside)
      ensures ok ==> Code() == Assemble(ar, old(Code()),
          Continues(CodeS(ar, old(Sc()), If(cond, a, b)), old(|bytes| - start)))
      ensures ok ==> breaks == old(breaks) + HolesAt(CodeS(ar, old(Sc()), If(cond, a, b)), old(|bytes|))
      decreases If(cond, a, b), 0
    {
      ghost var c0, sc, from, b0 := Code(), Sc(), start, breaks;
      AcceptsIf(cond, a, b, inside);
      hide Assemble, Functions.Compiled, CodeE, ScopeE, AcceptsE, CodeS, AcceptsS, ScopeS, Continues, HolesAt, PatchTo,
          Short16, Size;
      hide FunctionsE, FunctionsS, Made;
      ok := CompileExpr(cond);
      if !ok {
        return;
      }
      ghost var c1, sc1 := Code(), Sc();
      var thenJump := EmitJump(42);
      ok := CompileStmt(a);
      if !ok {
        return;
      }
      ghost var ca, sc2 := CodeS(ar, sc1, a), Sc();
      var elseJump := EmitJump(44);
      ghost var c2 := ThenPatched(ar, c1, ca, |c1.bytes| + 3 - from, Code());
      PatchJump(thenJump);
      ok := CompileElse(b, elseJump, c2);
      if !ok {
        return;
      }
      ghost var cb := if b.Some? then CodeS(ar, sc2, b.value) else [];
      HoleFreeE(ar, sc, cond);
      IfPatched(ar, c0, CodeE(ar, sc, cond), c1, ca, c2, cb, from, b0);
      IfListing(ar, sc, cond, a, b, sc1, sc2, ca, cb);
    }

    // The else branch, and the jump over it.
    method CompileElse(b: Option<Stmt>, elseJump: nat, ghost c2: Chunk) returns (ok: bool)
      requires Valid() && Code() == Assemble(ar, c2, [Plain(Jump(PLACEHOLDER))]) && elseJump == |c2.bytes| + 1
          && |bytes| == |c2.bytes| + 3
      modifies this, fns
      ensures ok == (b.Some? ==> AcceptsS(b.value, old(inside)))
      ensures ok ==> Made() == old(Made()) + (if b.Some? then FunctionsS(b.value) else {})
      ensures ok ==> Valid() && start == old(start) && inside == old(inside)
      ensures ok ==> Sc() == if b.Some? then ScopeS(old(Sc()), b.value) else old(Sc())
      ensures ok ==> var cb := if b.Some? then CodeS(ar, old(Sc()), b.value) else [];
                     && Code() == Assemble(ar, Assemble(ar, c2, [Plain(Jump(Short16(Size(cb))))]),
                         Continues(cb, |c2.bytes| + 3 - start))
                     && breaks == old(breaks) + HolesAt(cb, |c2.bytes| + 3)
      decreases b, 3
    {
      hide Assemble, Functions.Compiled, CodeS, AcceptsS, ScopeS, Continues, HolesAt, PatchTo, Short16, Size;
      ghost var back := |c2.bytes| + 3 - start;
      ghost var cb := if b.Some? then CodeS(ar, Sc(), b.value) else [];
      NoCode(ar, Code(), back, |c2.bytes| + 3);
      assert breaks + [] == breaks;
      ok := true;
      if b.Some? {
        ok := CompileStmt(b.value);
        if !ok {
          return;
        }
      }
      PatchForward(ar, c2, Jump(PLACEHOLDER), Continues(cb, back), Code());
      ContinuesSame(cb, back, 0);
      PatchJump(elseJump);
    }

    method CompileWhile(cond: Expr, body: Stmt) returns (ok: bool)
      requires Valid()
      modifies this, fns
      ensures ok == AcceptsS(While(cond, body), old(inside))
      ensures ok ==> Made() == old(Made()) + FunctionsS(While(cond, body))
      ensures ok ==>
          Valid() && Sc() == ScopeS(old(Sc()), While(cond, body)) && start == old(start)
          && inside == old(inside)
      ensures ok ==> Code() == Assemble(ar, old(Code()),
          Continues(CodeS(ar, old(Sc()), While(cond, body)), old(|bytes| - start)))
      ensures ok ==> breaks == old(breaks) + HolesAt(CodeS(ar, old(Sc()), While(cond, body)), old(|bytes|))
      decreases While(cond, body), 1
    {
      ghost var c0, sc, from := Code(), Sc(), start;
      AcceptsWhile(cond, body, inside);
      hide FunctionsE, FunctionsS, Assemble, Functions.Compiled, CodeE, ScopeE, AcceptsE, CodeS, AcceptsS, ScopeS,
          Continues, HolesAt, Short16, Size, WhileCode;
      var outerBreaks, outerStart, outerInside := breaks, start, inside;
      breaks, start, inside := [], |bytes|, true;
      ok := CompileLoop(cond, body);
      if !ok {
        return;
      }
      breaks, start, inside := outerBreaks, outerStart, outerInside;
      ghost var cc, cb := CodeE(ar, sc, cond), CodeS(ar, ScopeE(sc, cond), body);
      WhileListing(ar, sc, cond, body, ScopeE(sc, cond), cb);
      HoleFreeE(ar, sc, cond);
      WhileHoleFree(cc, cb);
      Closed(WhileCode(cc, cb), |c0.bytes| - from, |c0.bytes|, 0);
      AssembleGrows(ar, c0, WhileCode(cc, cb));
    }

    // The loop itself, once the state of the loop around it is put aside.
    method CompileLoop(cond: Expr, body: Stmt) returns (ok: bool)
      requires Valid() && breaks == [] && start == |bytes| && inside
      modifies this, fns
      ensures ok == (AcceptsE(cond) && AcceptsS(body, true))
      ensures ok ==> Made() == old(Made()) + FunctionsE(cond) + FunctionsS(body)
      ensures ok ==> Valid() && Sc() == ScopeS(ScopeE(old(Sc()), cond), body)
      ensures ok ==> Code() == Assemble(ar, old(Code()),
          WhileCode(CodeE(ar, old(Sc()), cond), CodeS(ar, ScopeE(old(Sc()), cond), body)))
      decreases While(cond, body), 0
    {
      hide Assemble, Functions.Compiled, CodeE, ScopeE, AcceptsE, CodeS, AcceptsS, ScopeS, Continues, HolesAt, PatchTo,
          Short16, Size, WhileCode;
      hide FunctionsE, FunctionsS;
      ghost var c0, sc := Code(), Sc();
      ok := CompileExpr(cond);
      if !ok {
        return;
      }
      ghost var cc, c1, sc1 := CodeE(ar, sc, cond), Code(), Sc();
      AssembleGrows(ar, c0, cc);
      var exit := EmitJump(42);
      ok := CompileStmt(body);
      if !ok {
        return;
      }
      ghost var cb := CodeS(ar, sc1, body);
      assert breaks == HolesAt(cb, |c1.bytes| + 3);
      BodySize(ar, c1, cb, Size(cc) + 3);
      CloseLoop(exit, c0, cc, c1, cb);
    }

    // The jump back, and the exit and the breaks patched to where it ends.
    method CloseLoop(exit: nat, ghost c0: Chunk, ghost cc: seq<Item>, ghost c1: Chunk, ghost cb: seq<Item>)
      requires c1 == Assemble(ar, c0, cc) && |c1.bytes| == |c0.bytes| + Size(cc) && exit == |c1.bytes| + 1
          && start == |c0.bytes|
      requires Code() == Assemble(ar, Assemble(ar, c1, [Plain(PopJumpIfFalse(PLACEHOLDER))]),
          Continues(cb, Size(cc) + 3))
      requires |bytes| == |c1.bytes| + 3 + Size(cb)
      requires breaks == HolesAt(cb, |c1.bytes| + 3) && forall h | h in breaks :: h + 2 <= |bytes|
      modifies this`bytes
      ensures Code() == Assemble(ar, c0, WhileCode(cc, cb)) && |old(bytes)| <= |bytes|
    {
      hide Assemble, Continues, HolesAt, PatchTo, Short16, Size, WhileCode;
      ghost var c2 := Code();
      EmitLoop();
      ghost var c3 := LoopEmitted(ar, c1, cc, cb, c2, Code());
      PatchJump(exit);
      PatchBreaksTo();
      BreaksPatched(ar, c0, cc, c1, cb, c3);
    }

    // The loop over the recorded breaks at the end of compile_while_loop.
    method PatchBreaksTo()
      requires forall h | h in breaks :: h + 2 <= |bytes|
      modifies this`bytes
      ensures bytes == PatchAll(old(bytes), breaks, |old(bytes)|)
    {
      hide PatchTo;
      var i := 0;
      assert breaks[..0] == [];
      while i < |breaks|
        modifies this`bytes
        invariant i <= |breaks| && bytes == PatchAll(old(bytes), breaks[..i], |old(bytes)|)
      {
        PatchAllLast(old(bytes), breaks[..i], breaks[i], |old(bytes)|);
        assert breaks[..i + 1] == breaks[..i] + [breaks[i]];
        assert breaks[i] in breaks;
        PatchJump(breaks[i]);
        i := i + 1;
      }
      assert breaks[..i] == breaks;
    }
  }

  lemma AcceptsWhile(cond: Expr, body: Stmt, inside: bool)
    ensures AcceptsS(While(cond, body), inside) <==> AcceptsE(cond) && AcceptsS(body, true)
    ensures FunctionsS(While(cond, body)) == FunctionsE(cond) + FunctionsS(body)
  {
  }

  lemma BodySize(ar: Arith, c1: Chunk, cb: seq<Item>, back: int)
    ensures |Assemble(ar, Assemble(ar, c1, [Plain(PopJumpIfFalse(PLACEHOLDER))]), Continues(cb, back)).bytes| ==
        |c1.bytes| + 3 + Size(cb)
  {
    hide Assemble, Continues, Size;
    AssembleGrows(ar, c1, [Plain(PopJumpIfFalse(PLACEHOLDER))]);
    JumpItem(PopJumpIfFalse(PLACEHOLDER));
    ContinuesSame(cb, back, 0);
    AssembleGrows(ar, Assemble(ar, c1, [Plain(PopJumpIfFalse(PLACEHOLDER))]), Continues(cb, back));
  }

  // The chunk after the jump back, once the exit of the loop is patched.
  lemma LoopEmitted(ar: Arith, c1: Chunk, cc: seq<Item>, cb: seq<Item>, c2: Chunk, r: Chunk) returns (c3: Chunk)
    requires c2 == Assemble(ar, Assemble(ar, c1, [Plain(PopJumpIfFalse(PLACEHOLDER))]), Continues(cb, Size(cc) + 3))
    requires r == Assemble(ar, c2, [Plain(Loop(Short16(Size(cc) + 3 + Size(cb) + 3)))])
    ensures c3 == Assemble(ar, c1, Unbroken(cc, cb)) && |r.bytes| == |c1.bytes| + 3 + Size(cb) + 3
    ensures Chunk(PatchTo(r.bytes, |c1.bytes| + 1, |r.bytes|), r.constants) == c3
  {
    hide Assemble, Continues, Size, PatchTo, Short16;
    var i, j, code := PopJumpIfFalse(PLACEHOLDER), [Plain(Loop(Short16(Size(cc) + 3 + Size(cb) + 3)))],
        Continues(cb, Size(cc) + 3);
    AssembleAppend(ar, Assemble(ar, c1, [Plain(i)]), code, j);
    PatchForward(ar, c1, i, code + j, r);
    ContinuesSame(cb, Size(cc) + 3, 0);
    SizeAppend(code, j);
    JumpItem(j[0].i);
    var k := [Plain(PopJumpIfFalse(Short16(Size(cb) + 3)))];
    AssembleAppend(ar, c1, k, code + j);
    assert k + (code + j) == Unbroken(cc, cb);
    c3 := Assemble(ar, c1, Unbroken(cc, cb));
  }

  // A loop from its exit jump on, with its breaks still open.
  function Unbroken(cc: seq<Item>, cb: seq<Item>): seq<Item> {
    [Plain(PopJumpIfFalse(Short16(Size(cb) + 3)))] + Continues(cb, Size(cc) + 3)
        + [Plain(Loop(Short16(Size(cc) + 3 + Size(cb) + 3)))]
  }

  lemma BreaksPatched(ar: Arith, c0: Chunk, cc: seq<Item>, c1: Chunk, cb: seq<Item>, c3: Chunk)
    requires c1 == Assemble(ar, c0, cc) && c3 == Assemble(ar, c1, Unbroken(cc, cb))
    requires |c3.bytes| == |c1.bytes| + 3 + Size(cb) + 3
    ensures Chunk(PatchAll(c3.bytes, HolesAt(cb, |c1.bytes| + 3), |c3.bytes|), c3.constants) == Assemble(ar, c0,
        WhileCode(cc, cb))
  {
    hide Assemble, Continues, Exits, Resolve, Size, Short16, HolesAt, PatchAll;
    var i, j := [Plain(PopJumpIfFalse(Short16(Size(cb) + 3)))], [Plain(Loop(Short16(Size(cc) + 3 + Size(cb) + 3)))];
    var code, base, ahead := Continues(cb, Size(cc) + 3), |c1.bytes|, 3 + Size(cb) + 3;
    PatchBreaks(ar, c1, Unbroken(cc, cb), |c3.bytes|);
    JumpItem(i[0].i);
    JumpItem(j[0].i);
    ContinuesSame(cb, Size(cc) + 3, base + 3);
    SizeAppend(i, code);
    Closed(i, 0, base, ahead);
    Closed(j, 0, base + 3 + Size(cb), 3);
    HolesAppend(i, code, base, base + 3);
    HolesAppend(i + code, j, base, base + 3 + Size(cb));
    ExitsAppend(i, code, ahead, ahead - 3);
    ExitsAppend(i + code, j, ahead, 3);
    ResolveInTwoSteps(cb, Size(cc) + 3, Size(cb) + 3);
    assert HolesAt(Unbroken(cc, cb), base) == HolesAt(cb, base + 3);
    AssembleAppend(ar, c0, cc, i + Resolve(cb, Size(cc) + 3, Size(cb) + 3) + j);
    assert cc + (i + Resolve(cb, Size(cc) + 3, Size(cb) + 3) + j) == WhileCode(cc, cb);
  }

  lemma WhileListing(ar: Arith, sc: Scope, cond: Expr, body: Stmt, sc1: Scope, cb: seq<Item>)
    requires sc1 == ScopeE(sc, cond) && cb == CodeS(ar, sc1, body)
    ensures CodeS(ar, sc, While(cond, body)) == WhileCode(CodeE(ar, sc, cond), cb)
    ensures ScopeS(sc, While(cond, body)) == ScopeS(sc1, body)
  {
    hide CodeE, ScopeE, WhileCode;
  }

  lemma AcceptsIf(cond: Expr, a: Stmt, b: Option<Stmt>, inside: bool)
    ensures AcceptsS(If(cond, a, b), inside) <==>
        AcceptsE(cond) && AcceptsS(a, inside)
        && (b.Some? ==> AcceptsS(b.value, inside))
    ensures FunctionsS(If(cond, a, b)) == FunctionsE(cond) + FunctionsS(a) + if b.Some? then FunctionsS(b.value) else {}
  {
  }

  lemma NoCode(ar: Arith, c: Chunk, back: int, base: nat)
    ensures Continues([], back) == [] && HolesAt([], base) == [] && Assemble(ar, c, []) == c
  {
  }

  // The chunk up to the jump over the else branch, once the jump to that branch is patched.
  lemma ThenPatched(ar: Arith, c1: Chunk, ca: seq<Item>, back1: int, r: Chunk) returns (c2: Chunk)
    requires r == Assemble(ar,
        Assemble(ar, Assemble(ar, c1, [Plain(PopJumpIfFalse(PLACEHOLDER))]), Continues(ca, back1)),
        [Plain(Jump(PLACEHOLDER))])
    ensures c2 == Assemble(ar, Assemble(ar, c1, [Plain(PopJumpIfFalse(Short16(Size(ca) + 3)))]), Continues(ca, back1))
    ensures |c2.bytes| == |c1.bytes| + 3 + Size(ca)
    ensures Chunk(PatchTo(r.bytes, |c1.bytes| + 1, |r.bytes|), r.constants) == Assemble(ar, c2,
        [Plain(Jump(PLACEHOLDER))])
    ensures |r.bytes| == |c2.bytes| + 3
  {
    hide Assemble, Continues, Size, PatchTo, Short16;
    var i, j, code := PopJumpIfFalse(PLACEHOLDER), [Plain(Jump(PLACEHOLDER))], Continues(ca, back1);
    AssembleAppend(ar, Assemble(ar, c1, [Plain(i)]), code, j);
    PatchForward(ar, c1, i, code + j, r);
    ContinuesSame(ca, back1, 0);
    SizeAppend(code, j);
    JumpItem(j[0].i);
    var patched := Assemble(ar, c1, [Plain(PopJumpIfFalse(Short16(Size(ca) + 3)))]);
    AssembleAppend(ar, patched, code, j);
    c2 := Assemble(ar, patched, code);
    AssembleGrows(ar, c2, j);
  }

  // The pieces of a conditional are the code of the conditional.
  lemma IfPatched(ar: Arith, c0: Chunk, cc: seq<Item>, c1: Chunk, ca: seq<Item>, c2: Chunk, cb: seq<Item>, start: nat,
      b0: seq<nat>)
    requires HoleFree(cc) && c1 == Assemble(ar, c0, cc)
    requires c2 == Assemble(ar, Assemble(ar, c1, [Plain(PopJumpIfFalse(Short16(Size(ca) + 3)))]),
        Continues(ca, |c1.bytes| + 3 - start))
    requires |c2.bytes| == |c1.bytes| + 3 + Size(ca)
    ensures Assemble(ar, Assemble(ar, c2, [Plain(Jump(Short16(Size(cb))))]), Continues(cb, |c2.bytes| + 3 - start)) ==
            Assemble(ar, c0, Continues(IfCode(cc, ca, cb), |c0.bytes| - start))
    ensures b0 + HolesAt(ca, |c1.bytes| + 3) + HolesAt(cb, |c2.bytes| + 3) == b0
        + HolesAt(IfCode(cc, ca, cb), |c0.bytes|)
  {
    hide Assemble, Continues, Size, Short16, HolesAt, HoleFree;
    var i, j := [Plain(PopJumpIfFalse(Short16(Size(ca) + 3)))], [Plain(Jump(Short16(Size(cb))))];
    var base, back := |c0.bytes|, |c0.bytes| - start;
    JumpItem(i[0].i);
    JumpItem(j[0].i);
    Closed(cc, back, base, 0);
    Closed(i, back + Size(cc), base + Size(cc), 0);
    Follow(ar, c0, cc, i, back, back + Size(cc), base + Size(cc));
    SizeAppend(cc, i);
    Follow(ar, c0, cc + i, ca, back, back + Size(cc + i), base + Size(cc + i));
    SizeAppend(cc + i, ca);
    Closed(j, back + Size(cc + i + ca), base + Size(cc + i + ca), 0);
    Follow(ar, c0, cc + i + ca, j, back, back + Size(cc + i + ca), base + Size(cc + i + ca));
    SizeAppend(cc + i + ca, j);
    Follow(ar, c0, cc + i + ca + j, cb, back, back + Size(cc + i + ca + j), base + Size(cc + i + ca + j));
    assert [] + HolesAt(ca, base + Size(cc + i)) == HolesAt(ca, base + Size(cc + i));
  }

  lemma IfListing(ar: Arith, sc: Scope, cond: Expr, a: Stmt, b: Option<Stmt>, sc1: Scope, sc2: Scope, ca: seq<Item>,
      cb: seq<Item>)
    requires sc1 == ScopeE(sc, cond) && sc2 == ScopeS(sc1, a) && ca == CodeS(ar, sc1, a)
    requires cb == if b.Some? then CodeS(ar, sc2, b.value) else []
    ensures CodeS(ar, sc, If(cond, a, b)) == IfCode(CodeE(ar, sc, cond), ca, cb)
    ensures ScopeS(sc, If(cond, a, b)) == if b.Some? then ScopeS(sc2, b.value) else sc2
  {
    hide CodeE, ScopeE, IfCode;
  }

  // What the statements of a block have been compiled to.
  ghost predicate StandsAfter(ar: Arith, c0: Chunk, sc: Scope, body: seq<Stmt>, start: nat, c: Chunk, sc1: Scope,
      holes: seq<nat>) {
    && sc1 == ScopeBody(sc, body)
    && c == Assemble(ar, c0, Continues(CodeBody(ar, sc, body), |c0.bytes| - start))
    && holes == HolesAt(CodeBody(ar, sc, body), |c0.bytes|)
  }

  lemma StandsNext(ar: Arith, c0: Chunk, sc: Scope, body: seq<Stmt>, i: nat, start: nat, c: Chunk, sc1: Scope,
      holes: seq<nat>)
    requires i < |body| && StandsAfter(ar, c0, sc, body[..i], start, c, sc1, holes)
    ensures var next := CodeS(ar, sc1, body[i]);
            StandsAfter(ar, c0, sc, body[..i + 1], start, Assemble(ar, c, Continues(next, |c.bytes| - start)),
                ScopeS(sc1, body[i]), holes + HolesAt(next, |c.bytes|))
  {
    hide Assemble, CodeS, ScopeS, Continues, HolesAt, CodeBody, ScopeBody;
    var code, base := CodeBody(ar, sc, body[..i]), |c0.bytes|;
    Follow(ar, c0, code, CodeS(ar, sc1, body[i]), base - start, base - start + Size(code), base + Size(code));
    CodeBodyLast(ar, sc, body[..i], body[i]);
    assert body[..i + 1] == body[..i] + [body[i]];
  }

  lemma StandsAll(ar: Arith, c0: Chunk, sc: Scope, body: seq<Stmt>, start: nat, c: Chunk, sc1: Scope, holes: seq<nat>)
    requires StandsAfter(ar, c0, sc, body, start, c, sc1, holes)
    ensures sc1 == ScopeBody(sc, body)
    ensures c == Assemble(ar, c0, Continues(CodeBody(ar, sc, body), |c0.bytes| - start))
    ensures holes == HolesAt(CodeBody(ar, sc, body), |c0.bytes|)
  {
  }

  lemma NoStmts(ar: Arith, c: Chunk, sc: Scope, body: seq<Stmt>, start: nat)
    ensures StandsAfter(ar, c, sc, body[..0], start, c, sc, [])
  {
  }

  lemma AcceptsBlock(body: seq<Stmt>, inside: bool)
    ensures AcceptsS(Block(body), inside) <==> forall i | 0 <= i < |body| :: AcceptsS(body[i], inside)
  {
  }

  lemma BlockCode(ar: Arith, sc: Scope, body: seq<Stmt>)
    ensures CodeS(ar, sc, Block(body)) == CodeBody(ar, sc, body) + Pops(|ScopeBody(sc, body).names| - |sc.names|)
    ensures ScopeS(sc, Block(body)) == sc && sc.names <= ScopeBody(sc, body).names && ScopeBody(sc, body).top == sc.top
  {
  }

  lemma NoPops()
    ensures Pops(0) == []
  {
  }

  lemma MorePops(n: nat)
    ensures Pops(n + 1) == Pops(n) + [Plain(Pop)]
  {
  }

  lemma JumpListing(ar: Arith, sc: Scope, s: Stmt, inside: bool)
    requires s.Break? || s.Continue?
    ensures CodeS(ar, sc, s) == [if s.Break? then BreakHole else ContinueHole] && ScopeS(sc, s) == sc
        && AcceptsS(s, inside) == inside
  {
  }

  lemma HoleAlone(ar: Arith, c: Chunk, back: int)
    ensures Continues([BreakHole], back) == [BreakHole] && HolesAt([BreakHole], |c.bytes|) == [|c.bytes| + 1]
    ensures Assemble(ar, c, [BreakHole]) == Assemble(ar, c, [Plain(Jump(PLACEHOLDER))])
    ensures Continues([ContinueHole], back) == [Plain(Loop(Short16(back + 3)))]
        && HolesAt([ContinueHole], |c.bytes|) == []
  {
    hide Encode;
    PutOne(ar, c, BreakHole);
    PutOne(ar, c, Plain(Jump(PLACEHOLDER)));
    assert [BreakHole][1..] == [] && [ContinueHole][1..] == [];
  }

  /** Code that follows code in the same loop. */
  lemma Follow(ar: Arith, c: Chunk, a: seq<Item>, b: seq<Item>, back: int, back1: int, base1: nat)
    requires back1 == back + Size(a) && base1 == |c.bytes| + Size(a)
    ensures |Assemble(ar, c, Continues(a, back)).bytes| == base1
    ensures Assemble(ar, Assemble(ar, c, Continues(a, back)), Continues(b, back1)) == Assemble(ar, c,
        Continues(a + b, back))
    ensures HolesAt(a + b, |c.bytes|) == HolesAt(a, |c.bytes|) + HolesAt(b, base1)
  {
    hide Assemble, Size, Continues, HolesAt;
    ContinuesAppend(a, b, back, back1);
    AssembleAppend(ar, c, Continues(a, back), Continues(b, back1));
    HolesAppend(a, b, |c.bytes|, base1);
    ContinuesSame(a, back, 0);
    AssembleGrows(ar, c, Continues(a, back));
  }

  lemma {:induction false} HoleFreeS(ar: Arith, sc: Scope, s: Stmt)
    requires AcceptsS(s, false)
    ensures HoleFree(CodeS(ar, sc, s))
    decreases s, 1
  {
    hide CodeE, ScopeE, HoleFree, Short16, Size;
    match s
    case Block(body) =>
      HoleFreeBody(ar, sc, body);
      HoleFreePops(|ScopeBody(sc, body).names| - |sc.names|);
      HoleFreeAppend(CodeBody(ar, sc, body), Pops(|ScopeBody(sc, body).names| - |sc.names|));
    case Return(e) =>
      HoleFreeE(ar, sc, e);
      HoleFreePlain(ReturnOp);
      HoleFreeAppend(CodeE(ar, sc, e), [Plain(ReturnOp)]);
    case While(cond, body) =>
      HoleFreeE(ar, sc, cond);
      WhileHoleFree(CodeE(ar, sc, cond), CodeS(ar, ScopeE(sc, cond), body));
    case If(cond, a, b) =>
      var sc1 := ScopeE(sc, cond);
      HoleFreeE(ar, sc, cond);
      HoleFreeS(ar, sc1, a);
      if b.Some? {
        HoleFreeS(ar, ScopeS(sc1, a), b.value);
      }
      HoleFreeIf(CodeE(ar, sc, cond), CodeS(ar, sc1, a), if b.Some? then CodeS(ar, ScopeS(sc1, a), b.value) else []);
    case ExprStmt(e) =>
      HoleFreeE(ar, sc, e);
      HoleFreePlain(Pop);
      HoleFreeAppend(CodeE(ar, sc, e), [Plain(Pop)]);
    case _ =>
  }

  lemma {:induction false} HoleFreeBody(ar: Arith, sc: Scope, body: seq<Stmt>)
    requires AcceptsS(Block(body), false)
    ensures HoleFree(CodeBody(ar, sc, body))
    decreases body, 0
  {
    hide CodeS, ScopeS, HoleFree;
    if body == [] {
      HoleFreePops(0);
    } else {
      HoleFreeS(ar, sc, body[0]);
      HoleFreeBody(ar, ScopeS(sc, body[0]), body[1..]);
      HoleFreeAppend(CodeS(ar, sc, body[0]), CodeBody(ar, ScopeS(sc, body[0]), body[1..]));
    }
  }

  lemma HoleFreePlain(i: Instr)
    ensures HoleFree([Plain(i)])
  {
  }

  lemma HoleFreePops(n: nat)
    ensures HoleFree(Pops(n)) && HoleFree([])
  {
  }

  lemma HoleFreeIf(cc: seq<Item>, a: seq<Item>, b: seq<Item>)
    requires HoleFree(cc) && (HoleFree(b) || b == []) && HoleFree(a)
    ensures HoleFree(IfCode(cc, a, b))
  {
    hide HoleFree, Short16, Size;
    var i, j := [Plain(PopJumpIfFalse(Short16(Size(a) + 3)))], [Plain(Jump(Short16(Size(b))))];
    HoleFreePlain(i[0].i);
    HoleFreePlain(j[0].i);
    HoleFreePops(0);
    HoleFreeAppend(cc, i);
    HoleFreeAppend(cc + i, a);
    HoleFreeAppend(cc + i + a, j);
    HoleFreeAppend(cc + i + a + j, b);
  }

  // What Codegen says of the larger constructs, one at a time.

  lemma SubscriptListing(ar: Arith, sc: Scope, t: Expr, i: Expr)
    ensures CodeE(ar, sc, Subscript(t, i)) == CodeE(ar, sc, i) + CodeE(ar, ScopeE(sc, i), t) + [Plain(GetSub)]
    ensures ScopeE(sc, Subscript(t, i)) == ScopeE(ScopeE(sc, i), t)
    ensures AcceptsE(Subscript(t, i)) <==> AcceptsE(t) && AcceptsE(i)
    ensures FunctionsE(Subscript(t, i)) == FunctionsE(t) + FunctionsE(i)
  {
  }

  lemma CallListing(ar: Arith, sc: Scope, callee: Expr, args: seq<Expr>)
    ensures CodeE(ar, sc, Call(callee, args)) ==
            CodeAll(ar, sc, args) + CodeE(ar, ScopeAll(sc, args), callee) + [Plain(CallOp(|args| % 0x100))]
    ensures ScopeE(sc, Call(callee, args)) == ScopeE(ScopeAll(sc, args), callee)
    ensures AcceptsE(Call(callee, args)) <==> |args| <= 255 && AcceptsE(callee) && AcceptsAll(args)
    ensures FunctionsE(Call(callee, args)) == FunctionsE(callee) + FunctionsAll(args)
  {
    hide CodeAll, ScopeAll, AcceptsAll, FunctionsAll;
  }

  lemma SliceListing(ar: Arith, sc: Scope, t: Expr, from: Option<Expr>, to: Option<Expr>)
    ensures var e, sc1 := Slice(t, from, to), ScopeO(sc, to);
            && CodeE(ar, sc, e) == CodeO(ar, sc, to) + CodeO(ar, sc1, from) + CodeE(ar, ScopeO(sc1, from), t)
                + [Plain(SliceInstr(from, to))]
            && ScopeE(sc, e) == ScopeE(ScopeO(sc1, from), t)
            && (AcceptsE(e) <==> AcceptsE(t) && AcceptsO(from) && AcceptsO(to))
            && FunctionsE(e) == FunctionsE(t) + FunctionsO(from) + FunctionsO(to)
  {
    hide CodeO, ScopeO, AcceptsO, FunctionsO;
  }

  lemma StoreSubscriptListing(ar: Arith, sc: Scope, e: Expr, sc1: Scope, sc2: Scope)
    requires e.Assign? && e.target.Subscript? && sc1 == ScopeE(sc, e.value) && sc2 == ScopeE(sc1, e.target.index)
    ensures CodeE(ar, sc, e) == CodeE(ar, sc, e.value) + CodeE(ar, sc1, e.target.index)
        + CodeE(ar, sc2, e.target.target) + StoreSubCode(e.op)
    ensures ScopeE(sc, e) == ScopeE(sc2, e.target.target)
  {
    hide StoreSubCode;
  }

  lemma AcceptsStore(op: Option<BinaryOp>, t: Expr, i: Expr, v: Expr)
    ensures AcceptsE(Assign(op, Subscript(t, i), v)) <==> AcceptsE(v) && AcceptsE(i) && AcceptsE(t)
    ensures FunctionsE(Assign(op, Subscript(t, i), v)) == FunctionsE(v) + FunctionsE(i) + FunctionsE(t)
  {
  }

  lemma StoreMemberListing(ar: Arith, sc: Scope, e: Expr, sc1: Scope)
    requires e.Assign? && e.target.Member? && sc1 == ScopeE(sc, e.value)
    ensures CodeE(ar, sc, e) == CodeE(ar, sc, e.value) + PushCode(Text(e.target.name))
        + CodeE(ar, sc1, e.target.target) + StoreSubCode(e.op)
    ensures ScopeE(sc, e) == ScopeE(sc1, e.target.target)
    ensures AcceptsE(e) <==> AcceptsE(e.value) && AcceptsE(e.target.target)
    ensures FunctionsE(e) == FunctionsE(e.value) + FunctionsE(e.target.target)
  {
    hide StoreSubCode, PushCode;
  }

  lemma StoreListing(ar: Arith, sc: Scope, op: Option<BinaryOp>, x: Name, v: Expr)
    ensures var e, isNew := Assign(op, Ident(x), v), x !in sc.names && !sc.top;
            && CodeE(ar, sc, e) == CodeE(ar, ValueScope(sc, x, v), v) + StoreNameCode(sc, x, op)
            && ScopeE(sc, e) == (if !isNew then ScopeE(sc, v) else if v.Fn? then sc.Declare(x)
                else ScopeE(sc, v).Declare(x))
            && (v.Fn? && isNew ==> ScopeE(sc.Declare(x), v) == sc.Declare(x))
            && (AcceptsE(e) <==> AcceptsE(v)) && FunctionsE(e) == FunctionsE(v)
  {
    hide StoreNameCode;
  }

  lemma BinaryListing(ar: Arith, sc: Scope, op: BinaryOp, l: Expr, r: Expr)
    ensures var e, folded := Binary(op, l, r), Vanishes(op, l, r) || Folds(op, l, r);
            && (!folded ==> CodeE(ar, sc, e) == CodeE(ar, sc, l) + CodeE(ar, ScopeE(sc, l), r) + [Plain(Operate(op))])
            && ScopeE(sc, e) == ScopeE(ScopeE(sc, l), r)
            && (AcceptsE(e) <==> AcceptsE(l) && AcceptsE(r))
            && (folded ==> ScopeE(sc, e) == sc && AcceptsE(e) && IsLiteral(l) && IsLiteral(r))
  {
    hide FoldBinary;
  }

  lemma AcceptsFunction(f: Function)
    ensures AcceptsE(Fn(f)) <==> |f.params| <= 255 && AcceptsS(f.code, false)
  {
  }

  lemma AssembleNone(ar: Arith, c: Chunk)
    ensures Assemble(ar, c, []) == c
  {
  }

  lemma AssembleThree(ar: Arith, c: Chunk, a: seq<Item>, b: seq<Item>, d: seq<Item>)
    ensures Assemble(ar, Assemble(ar, Assemble(ar, c, a), b), d) == Assemble(ar, c, a + b + d)
  {
    hide Assemble;
    AssembleAppend(ar, c, a, b);
    AssembleAppend(ar, c, a + b, d);
  }

  lemma AssembleFour(ar: Arith, c: Chunk, a: seq<Item>, b: seq<Item>, d: seq<Item>, e: seq<Item>)
    ensures Assemble(ar, Assemble(ar, Assemble(ar, Assemble(ar, c, a), b), d), e) == Assemble(ar, c, a + b + d + e)
  {
    hide Assemble;
    AssembleThree(ar, c, a, b, d);
    AssembleAppend(ar, c, a + b + d, e);
  }

  lemma ConstantBytes(bytes: seq<Byte>, use: Use, k: Short)
    ensures bytes + Encode(InstrOf(use, k)) ==
            match use
            case Load => bytes + [6] + ShortBytes(k)
            case ReadGlobal => bytes + [14] + ShortBytes(k)
            case WriteGlobal => bytes + [15] + ShortBytes(k)
            case UpdateGlobal(op) => bytes + [16] + [op] + ShortBytes(k)
            case Close => bytes + [22] + ShortBytes(k)
  {
  }

  method NoFunctions(ar: Arith) returns (fns: Functions)
    ensures fresh(fns) && fns.Compiled(ar) && fns.chunks == map[]
  {
    fns := new Functions();
  }
}

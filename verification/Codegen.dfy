/**
 What the compiler emits (src/compiler.c), as listings: the code of a construct is the concatenation of
 the code of its parts, and every jump gets its distance from the size of the code it skips. Module
 Compiler emits placeholders and patches them, as the source does, and is proved to produce these bytes.
 Variables captured from an enclosing function are left out: a name is a local of the running function or
 a global.
 */
module Codegen {
  import opened Syntax
  import opened Arithmetic
  import opened Values
  import opened Bytecode
  import opened Assembly

  const LOCALS_MAX: nat := 255

  // The locals of the function being compiled; the top level of a file never has any.
  datatype Scope = Scope(top: bool, names: seq<Name>) {
    // compiler_add_local: a full table drops the name.
    function Declare(x: Name): Scope {
      if |names| == LOCALS_MAX then this else this.(names := names + [x])
    }
  }

  // ----- constant folding -----

  function ToInt64(n: Bits64): int {
    if n < 0x8000_0000_0000_0000 then n else n - 0x1_0000_0000_0000_0000
  }

  function Wrap64(i: int): int {
    var u := i % 0x1_0000_0000_0000_0000;
    if u < 0x8000_0000_0000_0000 then u else u - 0x1_0000_0000_0000_0000
  }

  function Abs(i: int): nat {
    if i < 0 then -i else i
  }

  // C division and remainder round towards zero.
  function TruncDiv(a: int, b: int): int
    requires b != 0
  {
    if (a < 0) == (b < 0) then Abs(a) / Abs(b) else -(Abs(a) / Abs(b))
  }

  function TruncMod(a: int, b: int): int
    requires b != 0
  {
    if a < 0 then -(Abs(a) % Abs(b)) else Abs(a) % Abs(b)
  }

  predicate IsLiteral(e: Expr) {
    e.Int? || e.Float?
  }

  predicate FoldsInt(op: BinaryOp, l: Expr, r: Expr) {
    l.Int? && r.Int? && (op.Add? || op.Sub? || op.Mul? || op.Div? || op.Mod? || op.Pow?)
  }

  predicate FoldsFloat(op: BinaryOp, l: Expr, r: Expr) {
    IsLiteral(l) && IsLiteral(r) && !(l.Int? && r.Int?) && (op.Add? || op.Sub? || op.Mul? || op.Div? || op.Pow?)
  }

  // A remainder by a literal zero is folded to no code at all.
  predicate Vanishes(op: BinaryOp, l: Expr, r: Expr) {
    l.Int? && r.Int? && op.Mod? && r.number == 0
  }

  function FoldInt(ar: Arith, op: BinaryOp, a: int, b: int): Double
    requires op.Add? || op.Sub? || op.Mul? || op.Div? || op.Mod? || op.Pow?
    requires op.Mod? ==> b != 0
  {
    match op
    case Add => ar.ofInt(Wrap64(a + b))
    case Sub => ar.ofInt(Wrap64(a - b))
    case Mul => ar.ofInt(Wrap64(a * b))
    case Div => if b != 0 && TruncMod(a, b) == 0 then ar.ofInt(TruncDiv(a, b)) else ar.div(ar.ofInt(a), ar.ofInt(b))
    case Mod => ar.ofInt(TruncMod(a, b))
    case Pow => if b < 0 then ar.pow(ar.ofInt(a), ar.ofInt(b)) else ar.ofInt(ar.toInt(ar.pow(ar.ofInt(a), ar.ofInt(b))))
  }

  function LiteralDouble(ar: Arith, e: Expr): Double
    requires IsLiteral(e)
  {
    if e.Int? then ar.ofInt(ToInt64(e.number)) else e.double
  }

  function FoldFloat(ar: Arith, op: BinaryOp, a: Double, b: Double): Double
    requires op.Add? || op.Sub? || op.Mul? || op.Div? || op.Pow?
  {
    match op
    case Add => ar.add(a, b)
    case Sub => ar.sub(a, b)
    case Mul => ar.mul(a, b)
    case Div => ar.div(a, b)
    case Pow => ar.pow(a, b)
  }

  predicate Folds(op: BinaryOp, l: Expr, r: Expr) {
    !Vanishes(op, l, r) && (FoldsInt(op, l, r) || FoldsFloat(op, l, r))
  }

  function FoldBinary(ar: Arith, op: BinaryOp, l: Expr, r: Expr): Double
    requires Folds(op, l, r)
  {
    if FoldsInt(op, l, r) then FoldInt(ar, op, ToInt64(l.number), ToInt64(r.number))
    else FoldFloat(ar, op, LiteralDouble(ar, l), LiteralDouble(ar, r))
  }

  predicate FoldsUnary(op: UnaryOp, e: Expr) {
    op.Neg? && IsLiteral(e)
  }

  function FoldUnary(ar: Arith, e: Expr): Double
    requires IsLiteral(e)
  {
    if e.Int? then ar.ofInt(Wrap64(-ToInt64(e.number))) else ar.neg(e.double)
  }

  // ----- which names are declared after a construct -----

  function ScopeE(sc: Scope, e: Expr): (r: Scope)
    ensures sc.names <= r.names && r.top == sc.top
    decreases e
  {
    match e
    case Array(items) => ScopeAll(sc, items)
    case MapLit(items) => ScopeAll(sc, items)
    case Subscript(t, i) => ScopeE(ScopeE(sc, i), t)
    case Slice(t, from, to) => ScopeE(ScopeO(ScopeO(sc, to), from), t)
    case Member(t, _) => ScopeE(sc, t)
    case Assign(_, t, v) =>
      (match t
       case Ident(x) =>
         if x in sc.names || sc.top then ScopeE(sc, v)
         else if v.Fn? then sc.Declare(x)
         else ScopeE(sc, v).Declare(x)
       case Subscript(t1, i) => ScopeE(ScopeE(ScopeE(sc, v), i), t1)
       case Member(t1, _) => ScopeE(ScopeE(sc, v), t1)
       case _ => sc)
    case Unary(_, e1) => ScopeE(sc, e1)
    case Binary(_, l, r) => ScopeE(ScopeE(sc, l), r)
    case Call(callee, args) => ScopeE(ScopeAll(sc, args), callee)
    case _ => sc
  }

  function ScopeO(sc: Scope, e: Option<Expr>): (r: Scope)
    ensures sc.names <= r.names && r.top == sc.top
    decreases e
  {
    match e
    case None => sc
    case Some(e1) => ScopeE(sc, e1)
  }

  function ScopeAll(sc: Scope, es: seq<Expr>): (r: Scope)
    ensures sc.names <= r.names && r.top == sc.top
    decreases es
  {
    if es == [] then sc else ScopeAll(ScopeE(sc, es[0]), es[1..])
  }

  // ----- expressions -----

  function NameCode(sc: Scope, x: Name): seq<Item> {
    if x == NULL_NAME then [Plain(PushNull)]
    else if x == TRUE_NAME then [Plain(PushTrue)]
    else if x == FALSE_NAME then [Plain(PushFalse)]
    else match IndexOf(sc.names, x)
         case Some(i) => [Plain(GetLocal(i % 0x100))]
         case None => [WithConstant(ReadGlobal, Text(x))]
  }

  // A name that a function body does not know becomes a local: its value stays on the stack.
  function StoreNameCode(sc: Scope, x: Name, op: Option<BinaryOp>): seq<Item> {
    match IndexOf(sc.names, x)
    case Some(i) => [Plain(if op == None then SetLocal(i % 0x100) else SetLocalWithMath(OpByte(op.value), i % 0x100))]
    case None =>
      if !sc.top then [Plain(Dup)]
      else [WithConstant(if op == None then WriteGlobal else UpdateGlobal(OpByte(op.value)), Text(x))]
  }

  function StoreSubCode(op: Option<BinaryOp>): seq<Item> {
    [Plain(if op == None then SetSub else SetSubWithMath(OpByte(op.value)))]
  }

  function SliceInstr(from: Option<Expr>, to: Option<Expr>): Instr {
    if from == None then (if to == None then CopyBySlicing else MakeSliceUnder)
    else (if to == None then MakeSliceAbove else MakeSlice)
  }

  function UnaryInstr(op: UnaryOp): Instr {
    if op.Neg? then Negate else LogicalNot
  }

  function PushCode(v: Value): seq<Item> {
    [WithConstant(Load, v)]
  }

  // While its value is compiled, a new local that names a function is already in scope.
  function ValueScope(sc: Scope, x: Name, v: Expr): Scope {
    if x !in sc.names && !sc.top && v.Fn? then sc.Declare(x) else sc
  }

  function CodeE(ar: Arith, sc: Scope, e: Expr): seq<Item>
    decreases e
  {
    match e
    case Ident(x) => NameCode(sc, x)
    case Str(s) => PushCode(Text(s))
    case Int(n) => PushCode(Num(ar.ofInt(n)))
    case Float(d) => PushCode(Num(d))
    case Fn(f) => [WithConstant(Close, FunctionObj(f, 0))]
    case Array(items) => CodeAll(ar, sc, items) + [Plain(MakeArray(|items| % 0x1_0000_0000))]
    case MapLit(items) => CodeAll(ar, sc, items) + [Plain(MakeMap(|items| / 2 % 0x1_0000_0000))]
    case Subscript(t, i) => CodeE(ar, sc, i) + CodeE(ar, ScopeE(sc, i), t) + [Plain(GetSub)]
    case Slice(t, from, to) =>
      CodeO(ar, sc, to) + CodeO(ar, ScopeO(sc, to), from) + CodeE(ar, ScopeO(ScopeO(sc, to), from), t)
      + [Plain(SliceInstr(from, to))]
    case Member(t, x) => PushCode(Text(x)) + CodeE(ar, sc, t) + [Plain(GetSub)]
    case Assign(op, t, v) =>
      (match t
       case Ident(x) => CodeE(ar, ValueScope(sc, x, v), v) + StoreNameCode(sc, x, op)
       case Subscript(t1, i) =>
         var sc1 := ScopeE(sc, v);
         CodeE(ar, sc, v) + CodeE(ar, sc1, i) + CodeE(ar, ScopeE(sc1, i), t1) + StoreSubCode(op)
       case Member(t1, x) => CodeE(ar, sc, v) + PushCode(Text(x)) + CodeE(ar, ScopeE(sc, v), t1) + StoreSubCode(op)
       case _ => [])
    case Unary(op, e1) =>
      if FoldsUnary(op, e1) then PushCode(Num(FoldUnary(ar, e1))) else CodeE(ar, sc, e1) + [Plain(UnaryInstr(op))]
    case Binary(op, l, r) =>
      if Vanishes(op, l, r) then []
      else if Folds(op, l, r) then PushCode(Num(FoldBinary(ar, op, l, r)))
      else CodeE(ar, sc, l) + CodeE(ar, ScopeE(sc, l), r) + [Plain(Operate(op))]
    case Call(callee, args) =>
      CodeAll(ar, sc, args) + CodeE(ar, ScopeAll(sc, args), callee) + [Plain(CallOp(|args| % 0x100))]
  }

  function CodeO(ar: Arith, sc: Scope, e: Option<Expr>): seq<Item>
    decreases e
  {
    match e
    case None => []
    case Some(e1) => CodeE(ar, sc, e1)
  }

  function CodeAll(ar: Arith, sc: Scope, es: seq<Expr>): seq<Item>
    decreases es
  {
    if es == [] then [] else CodeE(ar, sc, es[0]) + CodeAll(ar, ScopeE(sc, es[0]), es[1..])
  }

  // ----- statements -----

  function ScopeS(sc: Scope, s: Stmt): (r: Scope)
    ensures sc.names <= r.names && r.top == sc.top
    decreases s
  {
    match s
    case Block(_) => sc
    case Return(e) => ScopeE(sc, e)
    case While(cond, body) => ScopeS(ScopeE(sc, cond), body)
    case If(cond, a, b) =>
      var sc1 := ScopeS(ScopeE(sc, cond), a);
      if b.Some? then ScopeS(sc1, b.value) else sc1
    case Break => sc
    case Continue => sc
    case ExprStmt(e) => ScopeE(sc, e)
  }

  function ScopeBody(sc: Scope, body: seq<Stmt>): (r: Scope)
    ensures sc.names <= r.names && r.top == sc.top
    decreases body
  {
    if body == [] then sc else ScopeBody(ScopeS(sc, body[0]), body[1..])
  }

  function Pops(n: nat): seq<Item> {
    seq(n, _ => Plain(Pop))
  }

  function WhileCode(cond: seq<Item>, body: seq<Item>): seq<Item> {
    cond + [Plain(PopJumpIfFalse(Short16(Size(body) + 3)))]
    + Resolve(body, Size(cond) + 3, Size(body) + 3)
    + [Plain(Loop(Short16(Size(cond) + 3 + Size(body) + 3)))]
  }

  function IfCode(cond: seq<Item>, a: seq<Item>, b: seq<Item>): seq<Item> {
    cond + [Plain(PopJumpIfFalse(Short16(Size(a) + 3)))] + a + [Plain(Jump(Short16(Size(b))))] + b
  }

  function CodeS(ar: Arith, sc: Scope, s: Stmt): seq<Item>
    decreases s
  {
    match s
    case Block(body) => CodeBody(ar, sc, body) + Pops(|ScopeBody(sc, body).names| - |sc.names|)
    case Return(e) => CodeE(ar, sc, e) + [Plain(ReturnOp)]
    case While(cond, body) => WhileCode(CodeE(ar, sc, cond), CodeS(ar, ScopeE(sc, cond), body))
    case If(cond, a, b) =>
      var sc1 := ScopeE(sc, cond);
      IfCode(CodeE(ar, sc, cond), CodeS(ar, sc1, a), if b.Some? then CodeS(ar, ScopeS(sc1, a), b.value) else [])
    case Break => [BreakHole]
    case Continue => [ContinueHole]
    case ExprStmt(e) => CodeE(ar, sc, e) + [Plain(Pop)]
  }

  function CodeBody(ar: Arith, sc: Scope, body: seq<Stmt>): seq<Item>
    decreases body
  {
    if body == [] then [] else CodeS(ar, sc, body[0]) + CodeBody(ar, ScopeS(sc, body[0]), body[1..])
  }

  const ENDING: seq<Item> := [Plain(PushNull), Plain(ReturnOp)]

  // compile_function: the body, then the implicit return of null.
  function FunctionCode(ar: Arith, f: Function): seq<Item> {
    CodeS(ar, Scope(false, f.params), f.code) + ENDING
  }

  // vm_load_file, before the peephole pass.
  function ProgramCode(ar: Arith, program: seq<Stmt>): seq<Item> {
    CodeS(ar, Scope(true, []), Block(program)) + ENDING
  }
}

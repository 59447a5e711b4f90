/**
 The programs of the correctness theorem. Each condition can be read off the program. Modules Departures, Misplaced,
 Layout and Settled have what happens where one is not met.
 */
module Domain {
  import opened Syntax
  import opened Arithmetic
  import opened Values
  import opened Assembly
  import opened Codegen

  // ----- names a function body takes from outside -----

  function NamesE(e: Expr): set<Name>
    decreases e
  {
    match e
    case Ident(x) => {x}
    case Fn(f) => NamesS(f.code) - (set p | p in f.params)
    case Array(items) => NamesAll(items)
    case MapLit(items) => NamesAll(items)
    case Subscript(t, i) => NamesE(t) + NamesE(i)
    case Slice(t, from, to) => NamesE(t) + NamesO(from) + NamesO(to)
    case Member(t, _) => NamesE(t)
    case Assign(_, t, v) => NamesE(t) + NamesE(v)
    case Unary(_, e1) => NamesE(e1)
    case Binary(_, l, r) => NamesE(l) + NamesE(r)
    case Call(callee, args) => NamesE(callee) + NamesAll(args)
    case _ => {}
  }

  function NamesO(e: Option<Expr>): set<Name>
    decreases e
  {
    match e
    case None => {}
    case Some(e1) => NamesE(e1)
  }

  function NamesAll(es: seq<Expr>): set<Name>
    decreases es
  {
    if es == [] then {} else NamesE(es[0]) + NamesAll(es[1..])
  }

  function NamesS(s: Stmt): set<Name>
    decreases s
  {
    match s
    case Block(body) => NamesBody(body)
    case Return(e) => NamesE(e)
    case While(cond, body) => NamesE(cond) + NamesS(body)
    case If(cond, a, b) => NamesE(cond) + NamesS(a) + (if b.Some? then NamesS(b.value) else {})
    case ExprStmt(e) => NamesE(e)
    case _ => {}
  }

  function NamesBody(body: seq<Stmt>): set<Name>
    decreases body
  {
    if body == [] then {} else NamesS(body[0]) + NamesBody(body[1..])
  }

  // The function literal uses no local of the function around it.
  predicate CaptureFree(f: Function, sc: Scope) {
    NamesE(Fn(f)) !! (set x | x in sc.names)
  }

  // ----- folding gives what the machine would compute -----

  predicate FoldBinarySafe(op: BinaryOp, l: Expr, r: Expr)
    requires Folds(op, l, r)
  {
    && (l.Int? ==> Small(l.number))
    && (r.Int? ==> Small(r.number))
    && (l.Int? && r.Int? ==>
          match op
          case Add => Small(l.number + r.number)
          case Mul => Small(l.number * r.number)
          case Pow => Small(Power(l.number, r.number))
          case _ => true)
  }

  predicate FoldUnarySafe(e: Expr)
    requires IsLiteral(e)
  {
    e.Int? ==> Small(e.number) && e.number != 0 // -0 folds to 0
  }

  // ----- where a new local may appear -----

  // `pending` says whether values of an enclosing expression may be on the stack.
  predicate FitsE(sc: Scope, e: Expr, pending: bool)
    decreases e
  {
    match e
    case Fn(f) => CaptureFree(f, sc)
    case Array(items) => FitsAll(sc, items, pending) && |items| < 0x1_0000_0000
    case MapLit(items) => FitsAll(sc, items, pending) && |items| < 0x1_0000_0000 && |items| % 2 == 0
    case Subscript(t, i) => FitsE(sc, i, pending) && FitsE(ScopeE(sc, i), t, true)
    case Slice(t, from, to) =>
      && FitsO(sc, to, pending)
      && FitsO(ScopeO(sc, to), from, pending || to.Some?)
      && FitsE(ScopeO(ScopeO(sc, to), from), t, pending || to.Some? || from.Some?)
    case Member(t, _) => FitsE(sc, t, true)
    case Assign(_, t, v) =>
      (match t
       case Ident(x) =>
         && FitsE(ValueScope(sc, x, v), v, pending)
         && (x !in sc.names && !sc.top ==> !pending && |ScopeE(sc, v).names| < LOCALS_MAX)
       case Subscript(t1, i) =>
         FitsE(sc, v, pending) && FitsE(ScopeE(sc, v), i, true) && FitsE(ScopeE(ScopeE(sc, v), i), t1, true)
       case Member(t1, _) => FitsE(sc, v, pending) && FitsE(ScopeE(sc, v), t1, true)
       case _ => false)
    case Unary(op, e1) => if FoldsUnary(op, e1) then FoldUnarySafe(e1) else FitsE(sc, e1, pending)
    case Binary(op, l, r) =>
      if Vanishes(op, l, r) then false
      else if Folds(op, l, r) then FoldBinarySafe(op, l, r)
      else FitsE(sc, l, pending) && FitsE(ScopeE(sc, l), r, true)
    case Call(callee, args) =>
      && FitsAll(sc, args, pending) && |args| < 0x100
      && FitsE(ScopeAll(sc, args), callee, pending || args != [])
    case _ => true
  }

  predicate FitsO(sc: Scope, e: Option<Expr>, pending: bool)
    decreases e
  {
    match e
    case None => true
    case Some(e1) => FitsE(sc, e1, pending)
  }

  predicate FitsAll(sc: Scope, es: seq<Expr>, pending: bool)
    decreases es
  {
    es == [] || (FitsE(sc, es[0], pending) && FitsAll(ScopeE(sc, es[0]), es[1..], true))
  }

  /** A local may be declared by a statement of a block, but not by the condition or the unbraced body of a
      loop or conditional; a break or continue may not leave a block that has locals. `loop` is the number
      of locals at the start of the innermost loop. */
  predicate FitsS(sc: Scope, s: Stmt, loop: Option<nat>)
    decreases s
  {
    match s
    case Block(body) => FitsBody(sc, body, loop)
    case Return(e) => FitsE(sc, e, false)
    case While(cond, body) =>
      FitsE(sc, cond, false) && ScopeE(sc, cond) == sc && FitsS(sc, body, Some(|sc.names|)) && ScopeS(sc, body) == sc
    case If(cond, a, b) =>
      var sc1 := ScopeE(sc, cond);
      && FitsE(sc, cond, false)
      && FitsS(sc1, a, loop) && ScopeS(sc1, a) == sc1
      && (b.Some? ==> FitsS(sc1, b.value, loop) && ScopeS(sc1, b.value) == sc1)
    case Break => loop == Some(|sc.names|)
    case Continue => loop == Some(|sc.names|)
    case ExprStmt(e) => FitsE(sc, e, false)
  }

  predicate FitsBody(sc: Scope, body: seq<Stmt>, loop: Option<nat>)
    decreases body
  {
    body == [] || (FitsS(sc, body[0], loop) && FitsBody(ScopeS(sc, body[0]), body[1..], loop))
  }

  ghost predicate FitsFunction(ar: Arith, f: Function) {
    && |f.params| <= LOCALS_MAX
    && FitsS(Scope(false, f.params), f.code, None)
    && Faithful(ar, FunctionCode(ar, f))
  }

  ghost predicate FitsProgram(ar: Arith, program: seq<Stmt>) {
    && FitsS(Scope(true, []), Block(program), None)
    && Faithful(ar, ProgramCode(ar, program))
  }
}

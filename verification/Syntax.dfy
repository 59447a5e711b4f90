/**
 The abstract syntax the compiler works on (src/ast.h), with one constructor per node tag.
 Names and strings are byte sequences; a double is the 64-bit pattern that NODE_FLOAT stores.
 */
module Syntax {
  type Byte = x: int | 0 <= x < 256

  type Name = seq<Byte>

  type Bits64 = x: int | 0 <= x < 0x1_0000_0000_0000_0000

  datatype Double = Double(bits: Bits64)

  datatype Option<+T> = None | Some(value: T)

  datatype UnaryOp = Neg | Not

  // In the order of the node tags and of the opcodes.
  datatype BinaryOp = Add | Sub | Mul | Div | Pow | Mod | Eql | Neq | Lt | Gt | Lte | Gte

  datatype Expr =
    | Ident(name: Name)
    | Str(text: seq<Byte>)
    | Int(number: Bits64)
    | Float(double: Double)
    | Fn(fn: Function)
    | Array(items: seq<Expr>)
    | MapLit(items: seq<Expr>) // key, value, key, value, ...
    | Subscript(target: Expr, index: Expr)
    | Slice(target: Expr, start: Option<Expr>, end: Option<Expr>)
    | Member(target: Expr, name: Name)
    | Assign(op: Option<BinaryOp>, target: Expr, value: Expr)
    | Unary(uop: UnaryOp, operand: Expr)
    | Binary(bop: BinaryOp, lhs: Expr, rhs: Expr)
    | Call(callee: Expr, args: seq<Expr>)

  datatype Stmt =
    | Block(body: seq<Stmt>)
    | Return(result: Expr)
    | While(condition: Expr, loopBody: Stmt)
    | If(condition: Expr, thenCase: Stmt, elseCase: Option<Stmt>)
    | Break
    | Continue
    | ExprStmt(expr: Expr)

  datatype Function = Function(params: seq<Name>, code: Stmt)

  // Numbers stand for the ASCII codes of the three reserved names.
  const NULL_NAME: Name := [110, 117, 108, 108]
  const TRUE_NAME: Name := [116, 114, 117, 101]
  const FALSE_NAME: Name := [102, 97, 108, 115, 101]

  // The first position of a name, as a left-to-right scan finds it.
  function IndexOf(names: seq<Name>, x: Name): (r: Option<nat>)
    ensures r.Some? ==> r.value < |names| && names[r.value] == x
    ensures r.Some? ==> forall i | 0 <= i < r.value :: names[i] != x
    ensures r.None? <==> x !in names
  {
    if names == [] then None
    else if names[0] == x then Some(0)
    else match IndexOf(names[1..], x)
         case Some(i) => Some(i + 1)
         case None => None
  }
}

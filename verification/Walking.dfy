/**
 The walk over the arena that compile_stmt, compile_expr and compile_function (src/compiler.c) make: from a node
 to nodes with smaller indices, so it ends, and what it meets is the tree that the node stands for.
 */
module Walking {
  import opened Syntax
  import opened Arena

  // What e has to be, by the tag of its node.
  lemma Shape(a: Ast, text: seq<Byte>, n: int, e: Expr)
    requires Denotes(a, text, n, e)
    ensures 0 <= n < |a.nodes| && DenotesNode(a, text, n, a.nodes[n], e)
    ensures match a.nodes[n].tag
            case NIdentifier => e.Ident?
            case NString => e.Str?
            case NInt => e.Int?
            case NFloat => e.Float?
            case NArray => e.Array?
            case NMap => e.MapLit?
            case NUnary(op) => e.Unary? && e.uop == op
            case NBinary(op) => e.Binary? && e.bop == op
            case NAssign(op) => e.Assign? && e.op == op
            case NFunction => e.Fn?
            case NCall => e.Call?
            case NMember => e.Member?
            case NSubscript => e.Subscript?
            case NSlice => e.Slice?
            case _ => false
  {
    hide DenotesAll, DenotesNames, DenotesBound, DenotesS, Listed, IsName;
  }

  method ReadExpr(a: Ast, text: seq<Byte>, n: int, ghost e: Expr) returns (r: Expr)
    requires Denotes(a, text, n, e)
    ensures r == e
    decreases n, 2
  {
    hide Denotes, DenotesAll, DenotesNames, DenotesBound, DenotesS, Listed;
    Shape(a, text, n, e);
    var node := a.nodes[n];
    match node.tag {
      case NIdentifier => r := Ident(text[node.lhs..node.rhs]);
      case NString => r := Str(a.strings[node.lhs..node.lhs + node.rhs]);
      case NInt =>
        Halves(e.number);
        r := Int(node.lhs * WORD + node.rhs);
      case NFloat =>
        Halves(e.double.bits);
        r := Float(Double(node.lhs * WORD + node.rhs));
      case NArray =>
        var items := ReadList(a, text, n, Listed(a, node.lhs, node.rhs), e.items);
        r := Array(items);
      case NMap =>
        var items := ReadList(a, text, n, Listed(a, node.lhs, 2 * node.rhs), e.items);
        r := MapLit(items);
      case NUnary(op) =>
        Inside(a, text, node.rhs, e.operand);
        var v := ReadExpr(a, text, node.rhs, e.operand);
        r := Unary(op, v);
      case NBinary(op) =>
        var l, h := ReadTwo(a, text, n, node.lhs, e.lhs, node.rhs, e.rhs);
        r := Binary(op, l, h);
      case NAssign(op) =>
        var l, h := ReadTwo(a, text, n, node.lhs, e.target, node.rhs, e.value);
        r := Assign(op, l, h);
      case NSubscript =>
        var l, h := ReadTwo(a, text, n, node.lhs, e.target, node.rhs, e.index);
        r := Subscript(l, h);
      case NFunction => r := ReadFunction(a, text, n, e);
      case NCall => r := ReadCall(a, text, n, e);
      case NMember =>
        Inside(a, text, node.lhs, e.target);
        var t := ReadExpr(a, text, node.lhs, e.target);
        var name := a.nodes[node.rhs];
        r := Member(t, text[name.lhs..name.rhs]);
      case NSlice => r := ReadSlice(a, text, n, e);
    }
  }

  lemma Halves(k: Bits64)
    ensures k == k / WORD * WORD + k % WORD
  {
  }

  lemma Inside(a: Ast, text: seq<Byte>, n: int, e: Expr)
    requires Denotes(a, text, n, e)
    ensures 0 <= n
  {
    hide DenotesNode;
  }

  method ReadTwo(a: Ast, text: seq<Byte>, n: int, i: int, ghost e: Expr, j: int, ghost f: Expr)
      returns (l: Expr, r: Expr)
    requires i < n && j < n && Denotes(a, text, i, e) && Denotes(a, text, j, f)
    ensures l == e && r == f
    decreases n, 0
  {
    hide Denotes;
    Inside(a, text, i, e);
    Inside(a, text, j, f);
    l := ReadExpr(a, text, i, e);
    r := ReadExpr(a, text, j, f);
  }

  method ReadList(a: Ast, text: seq<Byte>, n: int, ns: seq<int>, ghost es: seq<Expr>) returns (r: seq<Expr>)
    requires 0 <= n && DenotesAll(a, text, n, ns, es)
    ensures r == es
    decreases n, 0
  {
    hide Denotes;
    r := [];
    for i := 0 to |ns|
      invariant r == es[..i]
    {
      Inside(a, text, ns[i], es[i]);
      var item := ReadExpr(a, text, ns[i], es[i]);
      r := r + [item];
    }
  }

  method ReadCall(a: Ast, text: seq<Byte>, n: int, ghost e: Expr) returns (r: Expr)
    requires 0 <= n < |a.nodes| && e.Call? && DenotesNode(a, text, n, a.nodes[n], e)
    ensures r == e
    decreases n, 1
  {
    hide Denotes, DenotesAll, Listed;
    var node := a.nodes[n];
    var args := [];
    if node.rhs != INVALID {
      args := ReadList(a, text, n, Listed(a, node.rhs + 1, a.extra[node.rhs]), e.args);
    }
    Inside(a, text, node.lhs, e.callee);
    var f := ReadExpr(a, text, node.lhs, e.callee);
    r := Call(f, args);
  }

  method ReadSlice(a: Ast, text: seq<Byte>, n: int, ghost e: Expr) returns (r: Expr)
    requires 0 <= n < |a.nodes| && e.Slice? && DenotesNode(a, text, n, a.nodes[n], e)
    ensures r == e
    decreases n, 1
  {
    hide Denotes;
    var node := a.nodes[n];
    var bounds := a.nodes[node.rhs];
    var end := ReadBound(a, text, node.rhs, bounds.rhs, e.end);
    var start := ReadBound(a, text, node.rhs, bounds.lhs, e.start);
    Inside(a, text, node.lhs, e.target);
    var t := ReadExpr(a, text, node.lhs, e.target);
    r := Slice(t, start, end);
  }

  method ReadBound(a: Ast, text: seq<Byte>, n: int, k: int, ghost b: Option<Expr>) returns (r: Option<Expr>)
    requires 0 <= n && DenotesBound(a, text, n, k, b)
    ensures r == b
    decreases n, 0
  {
    hide DenotesNode;
    if k == INVALID {
      return None;
    }
    var e := ReadExpr(a, text, k, b.value);
    r := Some(e);
  }

  method ReadFunction(a: Ast, text: seq<Byte>, n: int, ghost e: Expr) returns (r: Expr)
    requires 0 <= n < |a.nodes| && e.Fn? && DenotesNode(a, text, n, a.nodes[n], e)
    ensures r == e
    decreases n, 1
  {
    hide DenotesS, DenotesNames, Listed;
    var node := a.nodes[n];
    var params := [];
    if node.lhs != INVALID {
      params := ReadNames(a, text, n, Listed(a, node.lhs + 1, a.extra[node.lhs]), e.fn.params);
    }
    InsideS(a, text, node.rhs, e.fn.code);
    var code := ReadStmt(a, text, node.rhs, e.fn.code);
    r := Fn(Function(params, code));
  }

  method ReadNames(a: Ast, text: seq<Byte>, n: int, ns: seq<int>, ghost xs: seq<Name>) returns (r: seq<Name>)
    requires DenotesNames(a, text, n, ns, xs)
    ensures r == xs
  {
    r := [];
    for i := 0 to |ns|
      invariant r == xs[..i]
    {
      var name := a.nodes[ns[i]];
      r := r + [text[name.lhs..name.rhs]];
    }
  }

  // ----- statements -----

  lemma ShapeS(a: Ast, text: seq<Byte>, n: int, s: Stmt)
    requires DenotesS(a, text, n, s)
    ensures 0 <= n < |a.nodes| && DenotesSNode(a, text, n, a.nodes[n], s)
    ensures match a.nodes[n].tag
            case NBlock => s.Block?
            case NReturn => s.Return?
            case NWhile => s.While?
            case NIf => s.If?
            case NBreak => s.Break?
            case NContinue => s.Continue?
            case _ => s.ExprStmt? && Denotes(a, text, n, s.expr)
  {
    hide DenotesNode, DenotesAllS, Listed;
    if s.ExprStmt? {
      ExprTags(a, text, n, a.nodes[n], s.expr);
    }
  }

  lemma InsideS(a: Ast, text: seq<Byte>, n: int, s: Stmt)
    requires DenotesS(a, text, n, s)
    ensures 0 <= n
  {
    hide DenotesSNode;
  }

  method ReadStmt(a: Ast, text: seq<Byte>, n: int, ghost s: Stmt) returns (r: Stmt)
    requires DenotesS(a, text, n, s)
    ensures r == s
    decreases n, 3
  {
    hide Denotes, DenotesS, DenotesAllS, Listed;
    ShapeS(a, text, n, s);
    var node := a.nodes[n];
    match node.tag {
      case NBlock =>
        var body := ReadBody(a, text, n, Listed(a, node.lhs, node.rhs), s.body);
        r := Block(body);
      case NReturn =>
        Inside(a, text, node.rhs, s.result);
        var e := ReadExpr(a, text, node.rhs, s.result);
        r := Return(e);
      case NWhile =>
        Inside(a, text, node.lhs, s.condition);
        InsideS(a, text, node.rhs, s.loopBody);
        var c := ReadExpr(a, text, node.lhs, s.condition);
        var body := ReadStmt(a, text, node.rhs, s.loopBody);
        r := While(c, body);
      case NIf =>
        Inside(a, text, node.lhs, s.condition);
        InsideS(a, text, a.extra[node.rhs], s.thenCase);
        var c := ReadExpr(a, text, node.lhs, s.condition);
        var t := ReadStmt(a, text, a.extra[node.rhs], s.thenCase);
        var f := ReadElse(a, text, n, a.extra[node.rhs + 1], s.elseCase);
        r := If(c, t, f);
      case NBreak => r := Break;
      case NContinue => r := Continue;
      case _ =>
        var e := ReadExpr(a, text, n, s.expr);
        r := ExprStmt(e);
    }
  }

  method ReadElse(a: Ast, text: seq<Byte>, n: int, k: int, ghost f: Option<Stmt>) returns (r: Option<Stmt>)
    requires 0 <= n && k < n && (match f case None => k == INVALID case Some(s) => DenotesS(a, text, k, s))
    ensures r == f
    decreases n, 2
  {
    if k == INVALID {
      return None;
    }
    var s := ReadStmt(a, text, k, f.value);
    r := Some(s);
  }

  method ReadBody(a: Ast, text: seq<Byte>, n: int, ns: seq<int>, ghost ss: seq<Stmt>) returns (r: seq<Stmt>)
    requires 0 <= n && DenotesAllS(a, text, n, ns, ss)
    ensures r == ss
    decreases n, 2
  {
    hide DenotesS;
    r := [];
    for i := 0 to |ns|
      invariant r == ss[..i]
    {
      InsideS(a, text, ns[i], ss[i]);
      var s := ReadStmt(a, text, ns[i], ss[i]);
      r := r + [s];
    }
  }
}

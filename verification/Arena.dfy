/**
 The arena of syntax nodes (src/ast.h). A node refers to others by index, to lists of indices in `extra` and to
 characters in `strings`; what a node stands for is a tree of module Syntax. Every reference is to a smaller
 index, so the functions that walk the arena end.
 */
module Arena {
  import opened Syntax

  datatype Tag =
    | NIdentifier | NString | NInt | NFloat | NArray | NMap
    | NUnary(u: UnaryOp) | NBinary(b: BinaryOp) | NAssign(a: Option<BinaryOp>)
    | NBlock | NFunction | NReturn | NBreak | NContinue | NCall | NWhile | NIf
    | NMember | NSubscript | NSlice | NIndices

  datatype Node = Node(tag: Tag, lhs: int, rhs: int)

  // No node, or no list.
  const INVALID: int := -1

  const WORD: int := 0x1_0000_0000

  datatype Ast = Ast(nodes: seq<Node>, extra: seq<int>, strings: seq<Byte>) {
    // ast_push. The index of the new node is the number of nodes before.
    function Push(tag: Tag, lhs: int, rhs: int): Ast {
      this.(nodes := nodes + [Node(tag, lhs, rhs)])
    }

    // Indices added to extra.
    function Expand(ns: seq<int>): Ast {
      this.(extra := extra + ns)
    }
  }

  predicate Extends(a: Ast, a': Ast) {
    a.nodes <= a'.nodes && a.extra <= a'.extra && a.strings <= a'.strings
  }

  // What is in extra from i on.
  function Listed(a: Ast, i: int, count: int): (r: seq<int>)
    requires 0 <= i && 0 <= count && i + count <= |a.extra|
    ensures |r| == count
  {
    a.extra[i..i + count]
  }

  predicate InExtra(a: Ast, i: int, count: int) {
    0 <= i && 0 <= count && i + count <= |a.extra|
  }

  // The node at n stands for the expression.
  predicate Denotes(a: Ast, text: seq<Byte>, n: int, e: Expr)
    decreases e, 1
  {
    0 <= n < |a.nodes| && DenotesNode(a, text, n, a.nodes[n], e)
  }

  predicate DenotesNode(a: Ast, text: seq<Byte>, n: int, node: Node, e: Expr)
    decreases e, 0
  {
    match e
    case Ident(x) => node.tag == NIdentifier && IsName(text, node, x)
    case Str(s) =>
      && node.tag == NString && 0 <= node.lhs && 0 <= node.rhs && node.lhs + node.rhs <= |a.strings|
      && a.strings[node.lhs..node.lhs + node.rhs] == s
    case Int(k) => node == Node(NInt, k / WORD, k % WORD)
    case Float(d) => node == Node(NFloat, d.bits / WORD, d.bits % WORD)
    case Array(items) =>
      node.tag == NArray && InExtra(a, node.lhs, node.rhs)
          && DenotesAll(a, text, n, Listed(a, node.lhs, node.rhs), items)
    case MapLit(items) =>
      && node.tag == NMap && InExtra(a, node.lhs, 2 * node.rhs)
      && DenotesAll(a, text, n, Listed(a, node.lhs, 2 * node.rhs), items)
    case Unary(op, v) => node.tag == NUnary(op) && node.lhs == 0 && node.rhs < n && Denotes(a, text, node.rhs, v)
    case Binary(op, l, r) =>
      node.tag == NBinary(op) && node.lhs < n && node.rhs < n && Denotes(a, text, node.lhs, l)
          && Denotes(a, text, node.rhs, r)
    case Assign(op, l, r) =>
      node.tag == NAssign(op) && node.lhs < n && node.rhs < n && Denotes(a, text, node.lhs, l)
          && Denotes(a, text, node.rhs, r)
    case Call(f, args) =>
      && node.tag == NCall && node.lhs < n && Denotes(a, text, node.lhs, f)
      && (node.rhs == INVALID <==> args == [])
      && (args != [] ==>
          Counted(a, node.rhs)
          && DenotesAll(a, text, n, Listed(a, node.rhs + 1, a.extra[node.rhs]), args))
    case Member(t, x) =>
      && node.tag == NMember && node.lhs < n && Denotes(a, text, node.lhs, t)
      && 0 <= node.rhs < n && node.rhs < |a.nodes| && a.nodes[node.rhs].tag == NIdentifier
          && IsName(text, a.nodes[node.rhs], x)
    case Subscript(t, k) =>
      node.tag == NSubscript && node.lhs < n && node.rhs < n && Denotes(a, text, node.lhs, t)
          && Denotes(a, text, node.rhs, k)
    case Slice(t, start, end) =>
      && node.tag == NSlice && node.lhs < n && Denotes(a, text, node.lhs, t)
      && 0 <= node.rhs < n && node.rhs < |a.nodes| && a.nodes[node.rhs].tag == NIndices
      && DenotesBound(a, text, node.rhs, a.nodes[node.rhs].lhs, start)
          && DenotesBound(a, text, node.rhs, a.nodes[node.rhs].rhs, end)
    case Fn(f) =>
      && node.tag == NFunction && node.rhs < n && DenotesS(a, text, node.rhs, f.code)
      && (node.lhs == INVALID <==> f.params == [])
      && (f.params != [] ==>
          Counted(a, node.lhs)
          && DenotesNames(a, text, n, Listed(a, node.lhs + 1, a.extra[node.lhs]), f.params))
  }

  // A list that starts with its length.
  predicate Counted(a: Ast, i: int) {
    0 <= i < |a.extra| && InExtra(a, i + 1, a.extra[i])
  }

  predicate IsName(text: seq<Byte>, node: Node, x: Name) {
    0 <= node.lhs <= node.rhs <= |text| && text[node.lhs..node.rhs] == x
  }

  predicate DenotesAll(a: Ast, text: seq<Byte>, n: int, ns: seq<int>, es: seq<Expr>)
    decreases es, 0
  {
    |ns| == |es| && forall i | 0 <= i < |ns| :: ns[i] < n && Denotes(a, text, ns[i], es[i])
  }

  predicate DenotesBound(a: Ast, text: seq<Byte>, n: int, k: int, b: Option<Expr>)
    decreases b, 0
  {
    match b
    case None => k == INVALID
    case Some(e) => k < n && Denotes(a, text, k, e)
  }

  predicate DenotesNames(a: Ast, text: seq<Byte>, n: int, ns: seq<int>, xs: seq<Name>) {
    && |ns| == |xs|
    && forall i | 0 <= i < |ns| :: 0 <= ns[i] < n && ns[i] < |a.nodes| && a.nodes[ns[i]].tag == NIdentifier
        && IsName(text, a.nodes[ns[i]], xs[i])
  }

  predicate DenotesS(a: Ast, text: seq<Byte>, n: int, s: Stmt)
    decreases s, 1
  {
    0 <= n < |a.nodes| && DenotesSNode(a, text, n, a.nodes[n], s)
  }

  predicate DenotesSNode(a: Ast, text: seq<Byte>, n: int, node: Node, s: Stmt)
    decreases s, 0
  {
    match s
    case ExprStmt(e) => DenotesNode(a, text, n, node, e)
    case Block(body) =>
      node.tag == NBlock && InExtra(a, node.lhs, node.rhs)
          && DenotesAllS(a, text, n, Listed(a, node.lhs, node.rhs), body)
    case Return(e) => node.tag == NReturn && node.lhs == 0 && node.rhs < n && Denotes(a, text, node.rhs, e)
    case While(c, body) =>
      node.tag == NWhile && node.lhs < n && node.rhs < n && Denotes(a, text, node.lhs, c)
          && DenotesS(a, text, node.rhs, body)
    case If(c, t, f) =>
      && node.tag == NIf && node.lhs < n && Denotes(a, text, node.lhs, c) && InExtra(a, node.rhs, 2)
      && a.extra[node.rhs] < n && DenotesS(a, text, a.extra[node.rhs], t)
      && (match f
          case None => a.extra[node.rhs + 1] == INVALID
          case Some(e) => a.extra[node.rhs + 1] < n && DenotesS(a, text, a.extra[node.rhs + 1], e))
    case Break => node == Node(NBreak, 0, 0)
    case Continue => node == Node(NContinue, 0, 0)
  }

  predicate DenotesAllS(a: Ast, text: seq<Byte>, n: int, ns: seq<int>, ss: seq<Stmt>)
    decreases ss, 0
  {
    |ns| == |ss| && forall i | 0 <= i < |ns| :: ns[i] < n && DenotesS(a, text, ns[i], ss[i])
  }

  // ----- adding to the arena changes no tree -----

  lemma ListedGrows(a: Ast, a': Ast, i: int, count: int)
    requires Extends(a, a') && InExtra(a, i, count)
    ensures InExtra(a', i, count) && Listed(a', i, count) == Listed(a, i, count)
  {
  }

  lemma {:induction false} Grows(a: Ast, a': Ast, text: seq<Byte>, n: int, e: Expr)
    requires Extends(a, a') && Denotes(a, text, n, e)
    ensures Denotes(a', text, n, e)
    decreases e, 1
  {
    hide DenotesNode;
    GrowsNode(a, a', text, n, a.nodes[n], e);
  }

  lemma {:induction false} GrowsNode(a: Ast, a': Ast, text: seq<Byte>, n: int, node: Node, e: Expr)
    requires Extends(a, a') && DenotesNode(a, text, n, node, e)
    ensures DenotesNode(a', text, n, node, e)
    decreases e, 0
  {
    hide Denotes, DenotesS, DenotesAll, DenotesNames, DenotesBound, Listed, IsName;
    match e
    case Array(items) =>
      ListedGrows(a, a', node.lhs, node.rhs);
      GrowsAll(a, a', text, n, Listed(a, node.lhs, node.rhs), items);
    case MapLit(items) =>
      ListedGrows(a, a', node.lhs, 2 * node.rhs);
      GrowsAll(a, a', text, n, Listed(a, node.lhs, 2 * node.rhs), items);
    case Unary(op, v) => Grows(a, a', text, node.rhs, v);
    case Binary(op, l, r) =>
      Grows(a, a', text, node.lhs, l);
      Grows(a, a', text, node.rhs, r);
    case Assign(op, l, r) =>
      Grows(a, a', text, node.lhs, l);
      Grows(a, a', text, node.rhs, r);
    case Call(f, args) =>
      Grows(a, a', text, node.lhs, f);
      if args != [] {
        ListedGrows(a, a', node.rhs + 1, a.extra[node.rhs]);
        GrowsAll(a, a', text, n, Listed(a, node.rhs + 1, a.extra[node.rhs]), args);
      }
    case Member(t, x) => Grows(a, a', text, node.lhs, t);
    case Subscript(t, k) =>
      Grows(a, a', text, node.lhs, t);
      Grows(a, a', text, node.rhs, k);
    case Slice(t, start, end) =>
      Grows(a, a', text, node.lhs, t);
      GrowsBound(a, a', text, node.rhs, a.nodes[node.rhs].lhs, start);
      GrowsBound(a, a', text, node.rhs, a.nodes[node.rhs].rhs, end);
    case Fn(f) =>
      GrowsS(a, a', text, node.rhs, f.code);
      if f.params != [] {
        ListedGrows(a, a', node.lhs + 1, a.extra[node.lhs]);
        GrowsNames(a, a', text, n, Listed(a, node.lhs + 1, a.extra[node.lhs]), f.params);
      }
    case _ =>
  }

  lemma {:induction false} GrowsAll(a: Ast, a': Ast, text: seq<Byte>, n: int, ns: seq<int>, es: seq<Expr>)
    requires Extends(a, a') && DenotesAll(a, text, n, ns, es)
    ensures DenotesAll(a', text, n, ns, es)
    decreases es, 0
  {
    hide Denotes;
    forall i | 0 <= i < |ns| ensures Denotes(a', text, ns[i], es[i]) {
      Grows(a, a', text, ns[i], es[i]);
    }
  }

  lemma {:induction false} GrowsBound(a: Ast, a': Ast, text: seq<Byte>, n: int, k: int, b: Option<Expr>)
    requires Extends(a, a') && DenotesBound(a, text, n, k, b)
    ensures DenotesBound(a', text, n, k, b)
    decreases b, 0
  {
    hide Denotes;
    if b.Some? {
      Grows(a, a', text, k, b.value);
    }
  }

  lemma GrowsNames(a: Ast, a': Ast, text: seq<Byte>, n: int, ns: seq<int>, xs: seq<Name>)
    requires Extends(a, a') && DenotesNames(a, text, n, ns, xs)
    ensures DenotesNames(a', text, n, ns, xs)
  {
    hide IsName;
  }

  lemma {:induction false} GrowsS(a: Ast, a': Ast, text: seq<Byte>, n: int, s: Stmt)
    requires Extends(a, a') && DenotesS(a, text, n, s)
    ensures DenotesS(a', text, n, s)
    decreases s, 1
  {
    hide DenotesSNode;
    GrowsSNode(a, a', text, n, a.nodes[n], s);
  }

  lemma {:induction false} GrowsSNode(a: Ast, a': Ast, text: seq<Byte>, n: int, node: Node, s: Stmt)
    requires Extends(a, a') && DenotesSNode(a, text, n, node, s)
    ensures DenotesSNode(a', text, n, node, s)
    decreases s, 0
  {
    hide Denotes, DenotesNode, DenotesS, DenotesAllS, Listed;
    match s
    case ExprStmt(e) => GrowsNode(a, a', text, n, node, e);
    case Block(body) =>
      ListedGrows(a, a', node.lhs, node.rhs);
      GrowsAllS(a, a', text, n, Listed(a, node.lhs, node.rhs), body);
    case Return(e) => Grows(a, a', text, node.rhs, e);
    case While(c, body) =>
      Grows(a, a', text, node.lhs, c);
      GrowsS(a, a', text, node.rhs, body);
    case If(c, t, f) =>
      Grows(a, a', text, node.lhs, c);
      GrowsS(a, a', text, a.extra[node.rhs], t);
      if f.Some? {
        GrowsS(a, a', text, a.extra[node.rhs + 1], f.value);
      }
    case _ =>
  }

  lemma {:induction false} GrowsAllS(a: Ast, a': Ast, text: seq<Byte>, n: int, ns: seq<int>, ss: seq<Stmt>)
    requires Extends(a, a') && DenotesAllS(a, text, n, ns, ss)
    ensures DenotesAllS(a', text, n, ns, ss)
    decreases ss, 0
  {
    hide DenotesS;
    forall i | 0 <= i < |ns| ensures DenotesS(a', text, ns[i], ss[i]) {
      GrowsS(a, a', text, ns[i], ss[i]);
    }
  }

  // ----- a node stands for one tree -----

  lemma {:induction false} OneTree(a: Ast, text: seq<Byte>, n: int, e: Expr, e': Expr)
    requires Denotes(a, text, n, e) && Denotes(a, text, n, e')
    ensures e == e'
    decreases e, 1
  {
    hide DenotesNode;
    OneTreeNode(a, text, n, a.nodes[n], e, e');
  }

  lemma {:induction false} OneTreeNode(a: Ast, text: seq<Byte>, n: int, node: Node, e: Expr, e': Expr)
    requires DenotesNode(a, text, n, node, e) && DenotesNode(a, text, n, node, e')
    ensures e == e'
    decreases e, 0
  {
    hide Denotes, DenotesS, DenotesAll, DenotesNames, DenotesBound, Listed;
    match e
    case Array(items) => OneList(a, text, n, Listed(a, node.lhs, node.rhs), items, e'.items);
    case MapLit(items) => OneList(a, text, n, Listed(a, node.lhs, 2 * node.rhs), items, e'.items);
    case Unary(op, v) => OneTree(a, text, node.rhs, v, e'.operand);
    case Binary(op, l, r) =>
      OneTree(a, text, node.lhs, l, e'.lhs);
      OneTree(a, text, node.rhs, r, e'.rhs);
    case Assign(op, l, r) =>
      OneTree(a, text, node.lhs, l, e'.target);
      OneTree(a, text, node.rhs, r, e'.value);
    case Call(f, args) =>
      OneTree(a, text, node.lhs, f, e'.callee);
      if args != [] {
        OneList(a, text, n, Listed(a, node.rhs + 1, a.extra[node.rhs]), args, e'.args);
      }
    case Member(t, x) => OneTree(a, text, node.lhs, t, e'.target);
    case Subscript(t, k) =>
      OneTree(a, text, node.lhs, t, e'.target);
      OneTree(a, text, node.rhs, k, e'.index);
    case Slice(t, start, end) =>
      OneTree(a, text, node.lhs, t, e'.target);
      OneBound(a, text, node.rhs, a.nodes[node.rhs].lhs, start, e'.start);
      OneBound(a, text, node.rhs, a.nodes[node.rhs].rhs, end, e'.end);
    case Fn(f) =>
      OneStmt(a, text, node.rhs, f.code, e'.fn.code);
      if f.params != [] {
        OneNames(a, text, n, Listed(a, node.lhs + 1, a.extra[node.lhs]), f.params, e'.fn.params);
      }
    case Int(k) => OneWord(k, e'.number);
    case Float(d) => OneWord(d.bits, e'.double.bits);
    case _ =>
  }

  lemma OneWord(j: Bits64, k: Bits64)
    requires j / WORD == k / WORD && j % WORD == k % WORD
    ensures j == k
  {
  }

  lemma {:induction false} OneList(a: Ast, text: seq<Byte>, n: int, ns: seq<int>, es: seq<Expr>, es': seq<Expr>)
    requires DenotesAll(a, text, n, ns, es) && DenotesAll(a, text, n, ns, es')
    ensures es == es'
    decreases es, 0
  {
    hide Denotes;
    forall i | 0 <= i < |ns| ensures es[i] == es'[i] {
      OneTree(a, text, ns[i], es[i], es'[i]);
    }
  }

  lemma {:induction false} OneBound(a: Ast, text: seq<Byte>, n: int, k: int, b: Option<Expr>, b': Option<Expr>)
    requires DenotesBound(a, text, n, k, b) && DenotesBound(a, text, n, k, b')
    ensures b == b'
    decreases b, 0
  {
    hide DenotesNode;
    if b.Some? && b'.Some? {
      OneTree(a, text, k, b.value, b'.value);
    }
  }

  lemma OneNames(a: Ast, text: seq<Byte>, n: int, ns: seq<int>, xs: seq<Name>, xs': seq<Name>)
    requires DenotesNames(a, text, n, ns, xs) && DenotesNames(a, text, n, ns, xs')
    ensures xs == xs'
  {
    forall i | 0 <= i < |ns| ensures xs[i] == xs'[i] {
    }
  }

  lemma {:induction false} OneStmt(a: Ast, text: seq<Byte>, n: int, s: Stmt, s': Stmt)
    requires DenotesS(a, text, n, s) && DenotesS(a, text, n, s')
    ensures s == s'
    decreases s, 1
  {
    hide DenotesSNode;
    OneStmtNode(a, text, n, a.nodes[n], s, s');
  }

  lemma {:induction false} OneStmtNode(a: Ast, text: seq<Byte>, n: int, node: Node, s: Stmt, s': Stmt)
    requires DenotesSNode(a, text, n, node, s) && DenotesSNode(a, text, n, node, s')
    ensures s == s'
    decreases s, 0
  {
    hide Denotes, DenotesNode, DenotesS, DenotesAllS, Listed;
    if s.ExprStmt? {
      ExprTags(a, text, n, node, s.expr);
    }
    if s'.ExprStmt? {
      ExprTags(a, text, n, node, s'.expr);
    }
    match s
    case ExprStmt(e) => OneTreeNode(a, text, n, node, e, s'.expr);
    case Block(body) => OneBody(a, text, n, Listed(a, node.lhs, node.rhs), body, s'.body);
    case Return(e) => OneTree(a, text, node.rhs, e, s'.result);
    case While(c, body) =>
      OneTree(a, text, node.lhs, c, s'.condition);
      OneStmt(a, text, node.rhs, body, s'.loopBody);
    case If(c, t, f) =>
      OneTree(a, text, node.lhs, c, s'.condition);
      OneStmt(a, text, a.extra[node.rhs], t, s'.thenCase);
      OneElse(a, text, a.extra[node.rhs + 1], f, s'.elseCase);
    case _ =>
  }

  lemma {:induction false} OneElse(a: Ast, text: seq<Byte>, k: int, f: Option<Stmt>, f': Option<Stmt>)
    requires match f case None => k == INVALID case Some(s) => DenotesS(a, text, k, s)
    requires match f' case None => k == INVALID case Some(s) => DenotesS(a, text, k, s)
    ensures f == f'
    decreases f, 0
  {
    hide DenotesSNode;
    if f.Some? && f'.Some? {
      OneStmt(a, text, k, f.value, f'.value);
    }
  }

  predicate IsExprTag(t: Tag) {
    t !in {NBlock, NReturn, NWhile, NIf, NBreak, NContinue}
  }

  lemma ExprTags(a: Ast, text: seq<Byte>, n: int, node: Node, e: Expr)
    requires DenotesNode(a, text, n, node, e)
    ensures IsExprTag(node.tag)
  {
    hide Denotes, DenotesS, DenotesAll, DenotesNames, DenotesBound, Listed;
  }

  lemma {:induction false} OneBody(a: Ast, text: seq<Byte>, n: int, ns: seq<int>, ss: seq<Stmt>, ss': seq<Stmt>)
    requires DenotesAllS(a, text, n, ns, ss) && DenotesAllS(a, text, n, ns, ss')
    ensures ss == ss'
    decreases ss, 0
  {
    hide DenotesS;
    forall i | 0 <= i < |ns| ensures ss[i] == ss'[i] {
      OneStmt(a, text, ns[i], ss[i], ss'[i]);
    }
  }
}

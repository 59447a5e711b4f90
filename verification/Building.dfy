/**
 What each node that the parser adds to the arena stands for, given what its children stand for.
 */
module Building {
  import opened Syntax
  import opened Arena

  lemma Longer(a: Ast, b: Ast, c: Ast)
    requires Extends(a, b) && Extends(b, c)
    ensures Extends(a, c)
  {
  }

  lemma PushExtends(a: Ast, tag: Tag, lhs: int, rhs: int)
    ensures Extends(a, a.Push(tag, lhs, rhs)) && |a.Push(tag, lhs, rhs).nodes| == |a.nodes| + 1
    ensures a.Push(tag, lhs, rhs).nodes[|a.nodes|] == Node(tag, lhs, rhs)
  {
  }

  lemma ExpandExtends(a: Ast, ns: seq<int>)
    ensures var b := a.Expand(ns);
            Extends(a, b) && b.nodes == a.nodes && InExtra(b, |a.extra|, |ns|) && Listed(b, |a.extra|, |ns|) == ns
  {
  }

  // The indices of a list, behind its length.
  lemma CountedExtends(a: Ast, ns: seq<int>)
    ensures var b := a.Expand([|ns|] + ns);
            && Extends(a, b) && b.nodes == a.nodes && Counted(b, |a.extra|) && b.extra[|a.extra|] == |ns|
            && Listed(b, |a.extra| + 1, |ns|) == ns
  {
    assert a.Expand([|ns|] + ns).extra[|a.extra| + 1..] == ns;
  }

  lemma BuildName(a: Ast, text: seq<Byte>, start: nat, end: nat)
    requires start <= end <= |text|
    ensures Denotes(a.Push(NIdentifier, start, end), text, |a.nodes|, Ident(text[start..end]))
  {
  }

  lemma BuildString(a: Ast, text: seq<Byte>, s: seq<Byte>)
    ensures var b := a.(strings := a.strings + s).Push(NString, |a.strings|, |s|);
            Extends(a, b) && Denotes(b, text, |a.nodes|, Str(s))
  {
    assert (a.strings + s)[|a.strings|..] == s;
  }

  lemma BuildInt(a: Ast, text: seq<Byte>, k: Bits64)
    ensures Denotes(a.Push(NInt, k / WORD, k % WORD), text, |a.nodes|, Int(k))
  {
  }

  lemma BuildFloat(a: Ast, text: seq<Byte>, d: Double)
    ensures Denotes(a.Push(NFloat, d.bits / WORD, d.bits % WORD), text, |a.nodes|, Float(d))
  {
  }

  lemma BuildUnary(a: Ast, text: seq<Byte>, op: UnaryOp, v: int, e: Expr)
    requires Denotes(a, text, v, e)
    ensures Denotes(a.Push(NUnary(op), 0, v), text, |a.nodes|, Unary(op, e))
  {
    hide DenotesNode;
    var b := a.Push(NUnary(op), 0, v);
    PushExtends(a, NUnary(op), 0, v);
    Grows(a, b, text, v, e);
    IsUnary(b, text, |a.nodes|, op, v, e);
  }

  lemma IsUnary(b: Ast, text: seq<Byte>, n: int, op: UnaryOp, v: int, e: Expr)
    requires v < n && Denotes(b, text, v, e) && 0 <= n < |b.nodes| && b.nodes[n] == Node(NUnary(op), 0, v)
    ensures Denotes(b, text, n, Unary(op, e))
  {
  }

  // A binary operator, an assignment or a subscript.
  function Pair(tag: Tag, l: Expr, r: Expr): Expr
    requires tag.NBinary? || tag.NAssign? || tag.NSubscript?
  {
    match tag
    case NBinary(op) => Binary(op, l, r)
    case NAssign(op) => Assign(op, l, r)
    case NSubscript => Subscript(l, r)
  }

  lemma BuildPair(a: Ast, text: seq<Byte>, tag: Tag, l: int, r: int, e: Expr, e': Expr)
    requires Denotes(a, text, l, e) && Denotes(a, text, r, e') && (tag.NBinary? || tag.NAssign? || tag.NSubscript?)
    ensures Denotes(a.Push(tag, l, r), text, |a.nodes|, Pair(tag, e, e'))
  {
    hide DenotesNode;
    var b := a.Push(tag, l, r);
    PushExtends(a, tag, l, r);
    Grows(a, b, text, l, e);
    Grows(a, b, text, r, e');
    IsPair(b, text, |a.nodes|, tag, l, r, e, e');
  }

  lemma IsPair(b: Ast, text: seq<Byte>, n: int, tag: Tag, l: int, r: int, e: Expr, e': Expr)
    requires l < n && r < n && Denotes(b, text, l, e) && Denotes(b, text, r, e')
        && (tag.NBinary? || tag.NAssign? || tag.NSubscript?)
    requires 0 <= n < |b.nodes| && b.nodes[n] == Node(tag, l, r)
    ensures Denotes(b, text, n, Pair(tag, e, e'))
  {
    hide Denotes;
    assert DenotesNode(b, text, n, Node(tag, l, r), Pair(tag, e, e'));
    NodeIs(b, text, n, Pair(tag, e, e'));
  }

  lemma NodeIs(b: Ast, text: seq<Byte>, n: int, e: Expr)
    requires 0 <= n < |b.nodes| && DenotesNode(b, text, n, b.nodes[n], e)
    ensures Denotes(b, text, n, e)
  {
    hide DenotesNode;
  }

  lemma SNodeIs(b: Ast, text: seq<Byte>, n: int, s: Stmt)
    requires 0 <= n < |b.nodes| && DenotesSNode(b, text, n, b.nodes[n], s)
    ensures DenotesS(b, text, n, s)
  {
    hide DenotesSNode;
  }

  lemma BuildMember(a: Ast, text: seq<Byte>, t: int, e: Expr, start: nat, end: nat)
    requires Denotes(a, text, t, e) && start <= end <= |text|
    ensures var b := a.Push(NIdentifier, start, end);
            Denotes(b.Push(NMember, t, |a.nodes|), text, |b.nodes|, Member(e, text[start..end]))
  {
    hide Denotes;
    var b := a.Push(NIdentifier, start, end);
    var c := b.Push(NMember, t, |a.nodes|);
    PushExtends(a, NIdentifier, start, end);
    PushExtends(b, NMember, t, |a.nodes|);
    Longer(a, b, c);
    Grows(a, c, text, t, e);
    InRange(a, text, t, e);
    assert DenotesNode(c, text, |b.nodes|, c.nodes[|b.nodes|], Member(e, text[start..end]));
    NodeIs(c, text, |b.nodes|, Member(e, text[start..end]));
  }

  lemma InRange(a: Ast, text: seq<Byte>, n: int, e: Expr)
    requires Denotes(a, text, n, e)
    ensures 0 <= n < |a.nodes|
  {
    hide DenotesNode;
  }

  // The bounds of a slice are a node of their own, whose tag means nothing.
  lemma BuildSlice(a: Ast, text: seq<Byte>, t: int, e: Expr, i: int, start: Option<Expr>, j: int, end: Option<Expr>)
    requires Denotes(a, text, t, e) && DenotesBound(a, text, |a.nodes|, i, start)
        && DenotesBound(a, text, |a.nodes|, j, end)
    ensures var b := a.Push(NIndices, i, j);
            Denotes(b.Push(NSlice, t, |a.nodes|), text, |b.nodes|, Slice(e, start, end))
  {
    hide Denotes, DenotesBound;
    var b := a.Push(NIndices, i, j);
    var c := b.Push(NSlice, t, |a.nodes|);
    PushExtends(a, NIndices, i, j);
    PushExtends(b, NSlice, t, |a.nodes|);
    Longer(a, b, c);
    Grows(a, c, text, t, e);
    InRange(a, text, t, e);
    GrowsBound(a, c, text, |a.nodes|, i, start);
    GrowsBound(a, c, text, |a.nodes|, j, end);
    assert DenotesNode(c, text, |b.nodes|, c.nodes[|b.nodes|], Slice(e, start, end));
    NodeIs(c, text, |b.nodes|, Slice(e, start, end));
  }

  lemma BuildArray(a: Ast, text: seq<Byte>, ns: seq<int>, es: seq<Expr>)
    requires DenotesAll(a, text, |a.nodes|, ns, es)
    ensures var b := a.Expand(ns).Push(NArray, |a.extra|, |ns|);
            Extends(a, b) && Denotes(b, text, |a.nodes|, Array(es))
  {
    hide Denotes, DenotesAll, Listed;
    var b := a.Expand(ns);
    var c := b.Push(NArray, |a.extra|, |ns|);
    ExpandExtends(a, ns);
    PushExtends(b, NArray, |a.extra|, |ns|);
    Longer(a, b, c);
    ListedGrows(b, c, |a.extra|, |ns|);
    GrowsAll(a, c, text, |a.nodes|, ns, es);
    assert DenotesNode(c, text, |a.nodes|, c.nodes[|a.nodes|], Array(es));
    NodeIs(c, text, |a.nodes|, Array(es));
  }

  lemma BuildMap(a: Ast, text: seq<Byte>, ns: seq<int>, es: seq<Expr>)
    requires DenotesAll(a, text, |a.nodes|, ns, es) && |ns| % 2 == 0
    ensures var b := a.Expand(ns).Push(NMap, |a.extra|, |ns| / 2);
            Extends(a, b) && Denotes(b, text, |a.nodes|, MapLit(es))
  {
    hide Denotes, DenotesAll, Listed;
    var b := a.Expand(ns);
    var c := b.Push(NMap, |a.extra|, |ns| / 2);
    ExpandExtends(a, ns);
    PushExtends(b, NMap, |a.extra|, |ns| / 2);
    Longer(a, b, c);
    ListedGrows(b, c, |a.extra|, |ns|);
    GrowsAll(a, c, text, |a.nodes|, ns, es);
    assert DenotesNode(c, text, |a.nodes|, c.nodes[|a.nodes|], MapLit(es));
    NodeIs(c, text, |a.nodes|, MapLit(es));
  }

  // The arena with a counted list, which an empty list does without.
  function WithList(a: Ast, ns: seq<int>): Ast {
    if ns == [] then a else a.Expand([|ns|] + ns)
  }

  function ListIndex(a: Ast, ns: seq<int>): int {
    if ns == [] then INVALID else |a.extra|
  }

  lemma BuildCall(a: Ast, text: seq<Byte>, f: int, e: Expr, ns: seq<int>, es: seq<Expr>)
    requires Denotes(a, text, f, e) && DenotesAll(a, text, |a.nodes|, ns, es)
    ensures var b := WithList(a, ns).Push(NCall, f, ListIndex(a, ns));
            Extends(a, b) && Denotes(b, text, |a.nodes|, Call(e, es))
  {
    hide Denotes, DenotesAll, Listed;
    var b := WithList(a, ns);
    var c := b.Push(NCall, f, ListIndex(a, ns));
    CountedExtends(a, ns);
    PushExtends(b, NCall, f, ListIndex(a, ns));
    Longer(a, b, c);
    if ns != [] {
      ListedGrows(b, c, |a.extra| + 1, |ns|);
    }
    SameLength(a, text, |a.nodes|, ns, es);
    Grows(a, c, text, f, e);
    InRange(a, text, f, e);
    GrowsAll(a, c, text, |a.nodes|, ns, es);
    assert DenotesNode(c, text, |a.nodes|, c.nodes[|a.nodes|], Call(e, es));
    NodeIs(c, text, |a.nodes|, Call(e, es));
  }

  lemma SameLength(a: Ast, text: seq<Byte>, n: int, ns: seq<int>, es: seq<Expr>)
    requires DenotesAll(a, text, n, ns, es)
    ensures |ns| == |es|
  {
    hide Denotes;
  }

  lemma BuildFunction(a: Ast, text: seq<Byte>, ns: seq<int>, xs: seq<Name>, k: int, code: Stmt)
    requires DenotesNames(a, text, |a.nodes|, ns, xs) && DenotesS(a, text, k, code)
    ensures var b := WithList(a, ns).Push(NFunction, ListIndex(a, ns), k);
            Extends(a, b) && Denotes(b, text, |a.nodes|, Fn(Function(xs, code)))
  {
    hide Denotes, DenotesS, DenotesNames, Listed;
    var b := WithList(a, ns);
    var c := b.Push(NFunction, ListIndex(a, ns), k);
    CountedExtends(a, ns);
    PushExtends(b, NFunction, ListIndex(a, ns), k);
    Longer(a, b, c);
    if ns != [] {
      ListedGrows(b, c, |a.extra| + 1, |ns|);
    }
    SameNames(a, text, |a.nodes|, ns, xs);
    GrowsS(a, c, text, k, code);
    InRangeS(a, text, k, code);
    GrowsNames(a, c, text, |a.nodes|, ns, xs);
    assert DenotesNode(c, text, |a.nodes|, c.nodes[|a.nodes|], Fn(Function(xs, code)));
    NodeIs(c, text, |a.nodes|, Fn(Function(xs, code)));
  }

  lemma SameNames(a: Ast, text: seq<Byte>, n: int, ns: seq<int>, xs: seq<Name>)
    requires DenotesNames(a, text, n, ns, xs)
    ensures |ns| == |xs|
  {
  }

  lemma InRangeS(a: Ast, text: seq<Byte>, n: int, s: Stmt)
    requires DenotesS(a, text, n, s)
    ensures 0 <= n < |a.nodes|
  {
    hide DenotesSNode;
  }

  lemma BuildReturn(a: Ast, text: seq<Byte>, v: int, e: Expr)
    requires Denotes(a, text, v, e)
    ensures DenotesS(a.Push(NReturn, 0, v), text, |a.nodes|, Return(e))
  {
    hide Denotes;
    var b := a.Push(NReturn, 0, v);
    PushExtends(a, NReturn, 0, v);
    Grows(a, b, text, v, e);
    InRange(a, text, v, e);
    assert DenotesSNode(b, text, |a.nodes|, b.nodes[|a.nodes|], Return(e));
    SNodeIs(b, text, |a.nodes|, Return(e));
  }

  lemma BuildWhile(a: Ast, text: seq<Byte>, c: int, e: Expr, k: int, s: Stmt)
    requires Denotes(a, text, c, e) && DenotesS(a, text, k, s)
    ensures DenotesS(a.Push(NWhile, c, k), text, |a.nodes|, While(e, s))
  {
    hide Denotes, DenotesS;
    var b := a.Push(NWhile, c, k);
    PushExtends(a, NWhile, c, k);
    Grows(a, b, text, c, e);
    InRange(a, text, c, e);
    GrowsS(a, b, text, k, s);
    InRangeS(a, text, k, s);
    assert DenotesSNode(b, text, |a.nodes|, b.nodes[|a.nodes|], While(e, s));
    SNodeIs(b, text, |a.nodes|, While(e, s));
  }

  // No node for the case that is missing.
  predicate DenotesElse(a: Ast, text: seq<Byte>, k: int, s: Option<Stmt>) {
    if s.None? then k == INVALID else DenotesS(a, text, k, s.value)
  }

  lemma BuildIf(a: Ast, text: seq<Byte>, c: int, e: Expr, k: int, s: Stmt, j: int, f: Option<Stmt>)
    requires Denotes(a, text, c, e) && DenotesS(a, text, k, s) && DenotesElse(a, text, j, f)
    ensures var b := a.Expand([k, j]).Push(NIf, c, |a.extra|);
            Extends(a, b) && DenotesS(b, text, |a.nodes|, If(e, s, f))
  {
    hide Denotes, DenotesS;
    var b := a.Expand([k, j]);
    var d := b.Push(NIf, c, |a.extra|);
    ExpandExtends(a, [k, j]);
    PushExtends(b, NIf, c, |a.extra|);
    Longer(a, b, d);
    Grows(a, d, text, c, e);
    InRange(a, text, c, e);
    GrowsS(a, d, text, k, s);
    InRangeS(a, text, k, s);
    if f.Some? {
      GrowsS(a, d, text, j, f.value);
      InRangeS(a, text, j, f.value);
    }
    assert d.extra[|a.extra|] == k && d.extra[|a.extra| + 1] == j;
    assert DenotesSNode(d, text, |a.nodes|, d.nodes[|a.nodes|], If(e, s, f));
    SNodeIs(d, text, |a.nodes|, If(e, s, f));
  }

  lemma BuildJump(a: Ast, text: seq<Byte>, tag: Tag)
    requires tag == NBreak || tag == NContinue
    ensures DenotesS(a.Push(tag, 0, 0), text, |a.nodes|, if tag == NBreak then Break else Continue)
  {
  }

  lemma BuildBlock(a: Ast, text: seq<Byte>, ns: seq<int>, ss: seq<Stmt>)
    requires DenotesAllS(a, text, |a.nodes|, ns, ss)
    ensures var b := a.Expand(ns).Push(NBlock, |a.extra|, |ns|);
            Extends(a, b) && DenotesS(b, text, |a.nodes|, Block(ss))
  {
    hide DenotesS, DenotesAllS, Listed;
    var b := a.Expand(ns);
    var c := b.Push(NBlock, |a.extra|, |ns|);
    ExpandExtends(a, ns);
    PushExtends(b, NBlock, |a.extra|, |ns|);
    Longer(a, b, c);
    ListedGrows(b, c, |a.extra|, |ns|);
    GrowsAllS(a, c, text, |a.nodes|, ns, ss);
    assert DenotesSNode(c, text, |a.nodes|, c.nodes[|a.nodes|], Block(ss));
    SNodeIs(c, text, |a.nodes|, Block(ss));
  }

  // One more child.
  lemma {:induction false} AllNext(a: Ast, text: seq<Byte>, n: int, m: int, ns: seq<int>, es: seq<Expr>, k: int,
      e: Expr)
    requires DenotesAll(a, text, n, ns, es) && Denotes(a, text, k, e) && n <= m && k < m
    ensures DenotesAll(a, text, m, ns + [k], es + [e])
  {
    hide Denotes;
  }

  lemma {:induction false} AllSNext(a: Ast, text: seq<Byte>, n: int, m: int, ns: seq<int>, ss: seq<Stmt>, k: int,
      s: Stmt)
    requires DenotesAllS(a, text, n, ns, ss) && DenotesS(a, text, k, s) && n <= m && k < m
    ensures DenotesAllS(a, text, m, ns + [k], ss + [s])
  {
    hide DenotesS;
  }
}

/**
 The condition Faithful of the domain, for what the compiler emits: it is about sizes and about constants that compare
 equal, and nothing else.
 */
module Formats {
  import opened Syntax
  import opened Arithmetic
  import opened Values
  import opened Bytecode
  import opened Assembly
  import opened Codegen
  import opened Operands
  import opened Layout

  // Closures are made from function constants, without captured variables.
  predicate ClosesItem(it: Item) {
    && (it.Plain? ==> !it.i.MakeClosure?)
    && (it.WithConstant? && it.use.Close? ==> it.v.FunctionObj? && it.v.upvalues == 0)
  }

  predicate ClosesWell(items: seq<Item>) {
    forall it | it in items :: ClosesItem(it)
  }

  lemma ClosesAppend(a: seq<Item>, b: seq<Item>)
    requires ClosesWell(a) && ClosesWell(b)
    ensures ClosesWell(a + b)
  {
    hide ClosesItem;
  }

  lemma ClosesLast(e: Expr)
    requires IsOperation(e)
    ensures ClosesWell(LastCode(e))
  {
  }

  lemma ClosesLeaf(ar: Arith, sc: Scope, e: Expr)
    requires !IsOperation(e) && !(e.Assign? && e.target.Ident?)
    ensures ClosesWell(CodeE(ar, sc, e))
  {
    hide CodeAll, FoldBinary, FoldUnary;
  }

  lemma StoreCode(ar: Arith, sc: Scope, e: Expr)
    requires e.Assign? && e.target.Ident?
    ensures CodeE(ar, sc, e) == CodeE(ar, ValueScope(sc, e.target.name, e.value), e.value)
        + StoreNameCode(sc, e.target.name, e.op)
    ensures ClosesWell(StoreNameCode(sc, e.target.name, e.op))
  {
  }

  lemma {:induction false} ClosesE(ar: Arith, sc: Scope, e: Expr)
    ensures ClosesWell(CodeE(ar, sc, e))
    decreases e, 1
  {
    hide CodeAll, FoldBinary, FoldUnary, ScopeE, CodeE, ClosesWell;
    if IsOperation(e) {
      CodeOfParts(ar, sc, e);
      PartsSmaller(e);
      ClosesAll(ar, sc, Parts(e), e);
      ClosesLast(e);
      ClosesAppend(CodeAll(ar, sc, Parts(e)), LastCode(e));
    } else if e.Assign? && e.target.Ident? {
      var inner, last := ValueScope(sc, e.target.name, e.value), StoreNameCode(sc, e.target.name, e.op);
      ClosesE(ar, inner, e.value);
      StoreCode(ar, sc, e);
      ClosesAppend(CodeE(ar, inner, e.value), last);
    } else {
      ClosesLeaf(ar, sc, e);
    }
  }

  lemma {:induction false} ClosesAll(ar: Arith, sc: Scope, es: seq<Expr>, parent: Expr)
    requires forall e | e in es :: e.Str? || e < parent
    ensures ClosesWell(CodeAll(ar, sc, es))
    decreases parent, 0, |es|
  {
    hide CodeE, ScopeE, ClosesItem;
    if es != [] {
      if es[0].Str? {
        ClosesLeaf(ar, sc, es[0]);
      } else {
        ClosesE(ar, sc, es[0]);
      }
      ClosesAll(ar, ScopeE(sc, es[0]), es[1..], parent);
      ClosesAppend(CodeE(ar, sc, es[0]), CodeAll(ar, ScopeE(sc, es[0]), es[1..]));
    }
  }

  lemma ClosesPlain(i: Instr)
    requires !i.MakeClosure?
    ensures ClosesWell([Plain(i)])
  {
  }

  lemma ClosesSmall(n: nat)
    ensures ClosesWell(Pops(n)) && ClosesWell([BreakHole]) && ClosesWell([ContinueHole]) && ClosesWell(ENDING)
        && ClosesWell([])
  {
  }

  lemma {:induction false} ClosesResolve(items: seq<Item>, back: int, ahead: int)
    requires ClosesWell(items)
    ensures ClosesWell(Resolve(items, back, ahead))
    decreases |items|
  {
    if items != [] {
      var w := ItemWidth(items[0]);
      assert ClosesItem(items[0]);
      assert ClosesItem(ResolveItem(items[0], back, ahead));
      ClosesResolve(items[1..], back + w, ahead - w);
    }
  }

  lemma {:induction false} ClosesWhile(cc: seq<Item>, cb: seq<Item>)
    requires ClosesWell(cc) && ClosesWell(cb)
    ensures ClosesWell(WhileCode(cc, cb))
  {
    hide Size, Short16, Resolve, ClosesItem, ClosesWell;
    var jump, loop := PopJumpIfFalse(Short16(Size(cb) + 3)), Loop(Short16(Size(cc) + 3 + Size(cb) + 3));
    var body := Resolve(cb, Size(cc) + 3, Size(cb) + 3);
    ClosesResolve(cb, Size(cc) + 3, Size(cb) + 3);
    ClosesPlain(jump);
    ClosesPlain(loop);
    ClosesAppend(cc, [Plain(jump)]);
    ClosesAppend(cc + [Plain(jump)], body);
    ClosesAppend(cc + [Plain(jump)] + body, [Plain(loop)]);
  }

  lemma {:induction false} ClosesIf(cc: seq<Item>, a: seq<Item>, b: seq<Item>)
    requires ClosesWell(cc) && ClosesWell(a) && ClosesWell(b)
    ensures ClosesWell(IfCode(cc, a, b))
  {
    hide Short16, Size;
  }

  lemma {:induction false} ClosesThen(a: seq<Item>, i: Instr)
    requires ClosesWell(a) && !i.MakeClosure?
    ensures ClosesWell(a + [Plain(i)])
  {
    ClosesPlain(i);
    ClosesAppend(a, [Plain(i)]);
  }

  lemma {:induction false} ClosesS(ar: Arith, sc: Scope, s: Stmt)
    ensures ClosesWell(CodeS(ar, sc, s))
    decreases s, 1
  {
    hide CodeE, ScopeE, ClosesWell, IfCode, WhileCode, Pops;
    ClosesSmall(0);
    match s
    case Block(body) =>
      var n := |ScopeBody(sc, body).names| - |sc.names|;
      ClosesBody(ar, sc, body);
      ClosesSmall(n);
      ClosesAppend(CodeBody(ar, sc, body), Pops(n));
    case Return(e) =>
      ClosesE(ar, sc, e);
      ClosesThen(CodeE(ar, sc, e), ReturnOp);
    case While(cond, body) =>
      ClosesE(ar, sc, cond);
      ClosesS(ar, ScopeE(sc, cond), body);
      ClosesWhile(CodeE(ar, sc, cond), CodeS(ar, ScopeE(sc, cond), body));
    case If(cond, a, b) =>
      var sc1 := ScopeE(sc, cond);
      ClosesE(ar, sc, cond);
      ClosesS(ar, sc1, a);
      if b.Some? {
        ClosesS(ar, ScopeS(sc1, a), b.value);
      }
      ClosesIf(CodeE(ar, sc, cond), CodeS(ar, sc1, a), if b.Some? then CodeS(ar, ScopeS(sc1, a), b.value) else []);
    case Break =>
    case Continue =>
    case ExprStmt(e) =>
      ClosesE(ar, sc, e);
      ClosesThen(CodeE(ar, sc, e), Pop);
  }

  lemma {:induction false} ClosesBody(ar: Arith, sc: Scope, body: seq<Stmt>)
    ensures ClosesWell(CodeBody(ar, sc, body))
    decreases body, 0
  {
    hide CodeS, ScopeS, ClosesItem;
    if body != [] {
      ClosesS(ar, sc, body[0]);
      ClosesBody(ar, ScopeS(sc, body[0]), body[1..]);
      ClosesAppend(CodeS(ar, sc, body[0]), CodeBody(ar, ScopeS(sc, body[0]), body[1..]));
    }
  }

  // ----- the limits -----

  // The bytes of a listing are at most five times its items, and its constants are no more than its items.
  lemma {:induction false} Small(ar: Arith, c: Chunk, items: seq<Item>)
    requires ClosesWell(items)
    ensures Size(items) <= 5 * |items| && |Assemble(ar, c, items).constants| <= |c.constants| + |items|
    decreases |items|
  {
    hide PutItem, ClosesItem;
    if items != [] {
      assert ClosesItem(items[0]);
      SmallItem(ar, c, items[0]);
      Small(ar, PutItem(ar, c, items[0]), items[1..]);
    }
  }

  lemma SmallItem(ar: Arith, c: Chunk, it: Item)
    requires ClosesItem(it)
    ensures ItemWidth(it) <= 5 && |PutItem(ar, c, it).constants| <= |c.constants| + 1
  {
    hide Encode;
  }

  /** What the compiler emits for a function or a program keeps to the format if and only if it has fewer than
      65536 bytes and at most 65536 constants, and no two different constants compare equal. */
  lemma {:induction false} FaithfulIs(ar: Arith, sc: Scope, s: Stmt)
    ensures var items := CodeS(ar, sc, s) + ENDING;
            Faithful(ar, items) <==>
            && Size(items) < 65536 && |ChunkOf(ar, items).constants| <= 65536
            && forall v, u | IsConstant(items, v) && IsConstant(items, u) && SameConstant(ar, v, u) :: v == u
  {
    hide CodeS, Size, ChunkOf, IsConstant, SameConstant, ClosesItem;
    ClosesS(ar, sc, s);
    ClosesSmall(0);
    ClosesAppend(CodeS(ar, sc, s), ENDING);
    ClosesAt(CodeS(ar, sc, s) + ENDING);
  }

  lemma ClosesAt(items: seq<Item>)
    requires ClosesWell(items)
    ensures forall k | 0 <= k < |items| :: items[k].Plain? ==> !items[k].i.MakeClosure?
    ensures forall k | 0 <= k < |items| :: items[k].WithConstant? && items[k].use.Close? ==>
              items[k].v.FunctionObj? && items[k].v.upvalues == 0
  {
    forall k | 0 <= k < |items| ensures ClosesItem(items[k]) {
      assert items[k] in items;
    }
  }

  /** A short program keeps to the format where doubles are equal only if they are the same. */
  lemma {:induction false} ShortFaithful(ar: Arith, sc: Scope, s: Stmt)
    requires |CodeS(ar, sc, s)| < 10000 && forall x, y :: ar.eq(x, y) ==> x == y
    ensures Faithful(ar, CodeS(ar, sc, s) + ENDING)
  {
    hide CodeS, IsConstant, ClosesItem, Size, Assemble, Faithful;
    var items := CodeS(ar, sc, s) + ENDING;
    FaithfulIs(ar, sc, s);
    ClosesS(ar, sc, s);
    ClosesSmall(0);
    ClosesAppend(CodeS(ar, sc, s), ENDING);
    Small(ar, EMPTY, items);
    assert forall v, u | SameConstant(ar, v, u) :: v == u;
  }
}

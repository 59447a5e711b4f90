/**
 The static layout of the stack: how many locals and pending values lie above the base of a frame at every
 instruction of a listing. Where a program is in the domain of the correctness theorem the layout agrees along
 every edge of the code: from an instruction to the next and from a jump to where it lands.
 */
module Layout {
  import opened Syntax
  import opened Arithmetic
  import opened Values
  import opened Bytecode
  import opened Assembly
  import opened Codegen
  import opened Domain
  import opened Operands
  import opened Jumps
  import C = Compiler

  // What lies above the base of the frame before an instruction.
  datatype Spot = Spot(locals: nat, pending: nat) {
    function Height(): nat {
      locals + pending
    }
  }

  // ----- the layout of a listing -----

  function LayE(sc: Scope, e: Expr, p: nat): seq<Spot>
    decreases e, 1
  {
    if IsOperation(e) then
      PartsSmaller(e);
      LayAll(sc, Parts(e), p, e) + [Spot(|ScopeAll(sc, Parts(e)).names|, p + |Parts(e)|)]
    else if e.Assign? && e.target.Ident? then LayE(sc, e.value, p) + [Spot(|ScopeE(sc, e.value).names|, p + 1)]
    else [Spot(|sc.names|, p)]
  }

  // Operands pile up.
  function LayAll(sc: Scope, es: seq<Expr>, p: nat, ghost parent: Expr): seq<Spot>
    requires forall e | e in es :: e.Str? || e < parent
    decreases parent, 0, |es|
  {
    if es == [] then []
    else
      (if es[0].Str? then [Spot(|sc.names|, p)] else LayE(sc, es[0], p))
      + LayAll(ScopeE(sc, es[0]), es[1..], p + 1, parent)
  }

  function LayPops(n: nat, top: nat): seq<Spot>
    requires n <= top
  {
    seq(n, i requires 0 <= i < n => Spot(top - i, 0))
  }

  function LayS(sc: Scope, s: Stmt): seq<Spot>
    decreases s, 1
  {
    match s
    case Block(body) => LayBody(sc, body)
        + LayPops(|ScopeBody(sc, body).names| - |sc.names|, |ScopeBody(sc, body).names|)
    case Return(e) => LayE(sc, e, 0) + [Spot(|ScopeE(sc, e).names|, 1)]
    case While(cond, body) =>
      var sc1 := ScopeE(sc, cond);
      LayE(sc, cond, 0) + [Spot(|sc1.names|, 1)] + LayS(sc1, body) + [Spot(|ScopeS(sc1, body).names|, 0)]
    case If(cond, a, b) =>
      var sc1 := ScopeE(sc, cond);
      var sc2 := ScopeS(sc1, a);
      LayE(sc, cond, 0) + [Spot(|sc1.names|, 1)] + LayS(sc1, a) + [Spot(|sc2.names|, 0)]
      + (if b.Some? then LayS(sc2, b.value) else [])
    case Break => [Spot(|sc.names|, 0)]
    case Continue => [Spot(|sc.names|, 0)]
    case ExprStmt(e) => LayE(sc, e, 0) + [Spot(|ScopeE(sc, e).names|, 1)]
  }

  function LayBody(sc: Scope, body: seq<Stmt>): seq<Spot>
    decreases body, 0
  {
    if body == [] then [] else LayS(sc, body[0]) + LayBody(ScopeS(sc, body[0]), body[1..])
  }

  // ----- what instructions do to the height -----

  // It needs so many values above the base, and changes their number by so much.
  datatype Effect = Effect(need: nat, change: int)

  function EffectOf(it: Item): Effect {
    match it
    case WithConstant(use, _) =>
      (match use
       case Load => Effect(0, 1)
       case ReadGlobal => Effect(0, 1)
       case WriteGlobal => Effect(1, 0)
       case UpdateGlobal(_) => Effect(1, 0)
       case Close => Effect(0, 1))
    case Plain(i) => InstrEffect(i)
    case _ => Effect(0, 0)
  }

  function InstrEffect(i: Instr): Effect {
    match i
    case Pop => Effect(1, -1)
    case Dup => Effect(1, 1)
    case Swp => Effect(2, 0)
    case GetLocal(slot) => Effect(slot + 1, 1)
    case SetLocal(slot) => Effect(slot + 1, 0)
    case SetLocalWithMath(_, slot) => Effect(slot + 2, 0)
    case SetGlobal(_) => Effect(1, 0)
    case SetGlobalWithMath(_, _) => Effect(1, 0)
    case GetSub => Effect(2, -1)
    case SetSub => Effect(3, -2)
    case SetSubWithMath(_) => Effect(3, -2)
    case MakeArray(count) => Effect(count, 1 - count)
    case MakeMap(count) => Effect(2 * count, 1 - 2 * count)
    case MakeSlice => Effect(3, -2)
    case MakeSliceAbove => Effect(2, -1)
    case MakeSliceUnder => Effect(2, -1)
    case CopyBySlicing => Effect(1, 0)
    case Negate => Effect(1, 0)
    case LogicalNot => Effect(1, 0)
    case Operate(_) => Effect(2, -1)
    case CallOp(argc) => Effect(argc + 1, 0 - argc) // once the call has returned
    case PopJumpIfFalse(_) => Effect(1, -1)
    case JumpIfFalse(_) => Effect(1, 0)
    case Jump(_) => Effect(0, 0)
    case Loop(_) => Effect(0, 0)
    case ReturnOp => Effect(1, -1)
    case CloseUpvalue => Effect(1, -1)
    case SetUpvalue(_) => Effect(1, 0)
    case SetUpvalueWithMath(_, _) => Effect(1, 0)
    case _ => Effect(0, 1)
  }

  // The height before item j of a listing, or after the listing.
  function HeightAt(lay: seq<Spot>, out: nat, j: nat): nat
    requires j <= |lay|
  {
    if j < |lay| then lay[j].Height() else out
  }

  // The layout agrees along the edges that leave item k; an open jump has none yet.
  ghost predicate FlowsAt(code: seq<Item>, lay: seq<Spot>, out: nat, k: nat)
    requires k < |code| == |lay|
  {
    var it, h := code[k], lay[k].Height();
    it.BreakHole? || it.ContinueHole? || (
      && h >= EffectOf(it).need
      && (Continues(it) ==> HeightAt(lay, out, k + 1) == h + EffectOf(it).change)
      && (JumpAt(code, k) ==> exists j: nat :: Arrives(code, lay, out, k, j)))
  }

  // Whether control can go on to the next item.
  predicate Continues(it: Item) {
    it.WithConstant? || (it.Plain? && it.i != ReturnOp && !it.i.Jump? && !it.i.Loop?)
  }

  // The jump at item k lands on item j, at the height that the layout has there.
  predicate Arrives(code: seq<Item>, lay: seq<Spot>, out: nat, k: nat, j: nat)
    requires k < |code| == |lay|
  {
    Lands(code, k, j, false) && HeightAt(lay, out, j) == lay[k].Height() + EffectOf(code[k]).change
  }

  ghost predicate Flows(code: seq<Item>, lay: seq<Spot>, out: nat) {
    |code| == |lay| && forall k: nat | k < |code| :: FlowsAt(code, lay, out, k)
  }

  // ----- listings side by side -----

  lemma {:induction false} FlowsAppend(a: seq<Item>, la: seq<Spot>, mid: nat, b: seq<Item>, lb: seq<Spot>, out: nat)
    requires Flows(a, la, mid) && Flows(b, lb, out) && mid == HeightAt(lb, out, 0)
    ensures Flows(a + b, la + lb, out)
  {
    hide Lands, EffectOf;
    forall k: nat | k < |a + b| ensures FlowsAt(a + b, la + lb, out, k) {
      if k < |a| {
        assert FlowsAt(a, la, mid, k);
        if JumpAt(a + b, k) {
          assert JumpAt(a, k);
          var j: nat :| Arrives(a, la, mid, k, j);
          LandsInside(a, k, j);
          LandsLeft(a, b, k, j, false);
          assert Arrives(a + b, la + lb, out, k, j);
        }
      } else {
        FlowsShifted(a, la, b, lb, out, k - |a|);
      }
    }
  }

  lemma {:induction false} FlowsShifted(a: seq<Item>, la: seq<Spot>, b: seq<Item>, lb: seq<Spot>, out: nat, k: nat)
    requires |a| == |la| && Flows(b, lb, out) && k < |b|
    ensures FlowsAt(a + b, la + lb, out, |a| + k)
  {
    hide Lands, EffectOf;
    assert FlowsAt(b, lb, out, k);
    assert HeightAt(la + lb, out, |a| + k + 1) == HeightAt(lb, out, k + 1);
    if JumpAt(a + b, |a| + k) {
      assert JumpAt(b, k);
      var j: nat :| Arrives(b, lb, out, k, j);
      LandsInside(b, k, j);
      LandsRight(a, b, k, j, false);
      assert Arrives(a + b, la + lb, out, |a| + k, |a| + j);
    }
  }

  lemma LandsInside(code: seq<Item>, k: nat, j: nat)
    requires Lands(code, k, j, false)
    ensures j <= |code|
  {
  }

  lemma FlowsNothing(out: nat)
    ensures Flows([], [], out)
  {
  }

  lemma FlowsOne(it: Item, spot: Spot, out: nat)
    requires it.WithConstant? || (it.Plain? && !IsJump(it.i)) || it.BreakHole? || it.ContinueHole?
    requires it.WithConstant? || it.Plain? ==> spot.Height() >= EffectOf(it).need
    requires Continues(it) ==> out == spot.Height() + EffectOf(it).change
    ensures Flows([it], [spot], out)
  {
    hide EffectOf;
  }

  // One more instruction.
  lemma {:induction false} FlowsLast(a: seq<Item>, la: seq<Spot>, it: Item, spot: Spot, out: nat)
    requires Flows(a, la, spot.Height()) && (it.WithConstant? || (it.Plain? && !IsJump(it.i)))
    requires spot.Height() >= EffectOf(it).need
    requires Continues(it) ==> out == spot.Height() + EffectOf(it).change
    ensures Flows(a + [it], la + [spot], out)
  {
    hide Flows, EffectOf;
    FlowsOne(it, spot, out);
    FlowsAppend(a, la, spot.Height(), [it], [spot], out);
  }

  lemma {:induction false} FlowsPops(n: nat, top: nat)
    requires n <= top
    ensures Flows(Pops(n), LayPops(n, top), top - n) && HeightAt(LayPops(n, top), top - n, 0) == top
  {
  }

  // ----- expressions -----

  /** The layout of an expression: it leaves one value more, and whatever locals it declared. */
  lemma {:induction false} FlowsE(ar: Arith, sc: Scope, e: Expr, p: nat, pending: bool)
    requires FitsE(sc, e, pending)
    ensures Flows(CodeE(ar, sc, e), LayE(sc, e, p), |ScopeE(sc, e).names| + p + 1)
    ensures HeightAt(LayE(sc, e, p), |ScopeE(sc, e).names| + p + 1, 0) == |sc.names| + p
    decreases e, 1
  {
    hide CodeE, ScopeE, CodeAll, ScopeAll, FitsE, FitsAll, LayAll, Flows, Parts, LastCode;
    var out := |ScopeE(sc, e).names| + p + 1;
    if IsOperation(e) {
      var es := Parts(e);
      CodeOfParts(ar, sc, e);
      ScopeOfParts(ar, sc, e);
      FitsOfParts(sc, e, pending);
      PartsSmaller(e);
      FlowsAll(ar, sc, es, p, e, pending);
      FitsCounts(sc, e, pending);
      LastEffect(e);
      var it := LastCode(e)[0];
      assert LastCode(e) == [it];
      FlowsLast(CodeAll(ar, sc, es), LayAll(sc, es, p, e), it, Spot(|ScopeAll(sc, es).names|, p + |es|), out);
    } else if e.Assign? && e.target.Ident? {
      FlowsStore(ar, sc, e, p, pending);
    } else {
      FlowsLeaf(ar, sc, e, p, pending);
    }
  }

  lemma {:induction false} FlowsAll(ar: Arith, sc: Scope, es: seq<Expr>, p: nat, parent: Expr, pending: bool)
    requires (forall e | e in es :: e.Str? || e < parent) && FitsAll(sc, es, pending)
    ensures Flows(CodeAll(ar, sc, es), LayAll(sc, es, p, parent), |ScopeAll(sc, es).names| + p + |es|)
    ensures HeightAt(LayAll(sc, es, p, parent), |ScopeAll(sc, es).names| + p + |es|, 0) == |sc.names| + p
    decreases parent, 0, |es|
  {
    hide CodeE, ScopeE, FitsE, Flows, LayE;
    if es == [] {
      FlowsNothing(|sc.names| + p);
    } else {
      var e, sc1 := es[0], ScopeE(sc, es[0]);
      var first := if e.Str? then [Spot(|sc.names|, p)] else LayE(sc, e, p);
      assert e in es;
      if e.Str? {
        FlowsLeaf(ar, sc, e, p, pending);
        LayStr(sc, e, p);
      } else {
        FlowsE(ar, sc, e, p, pending);
      }
      FlowsAll(ar, sc1, es[1..], p + 1, parent, true);
      FlowsAppend(CodeE(ar, sc, e), first, |sc1.names| + p + 1, CodeAll(ar, sc1, es[1..]),
          LayAll(sc1, es[1..], p + 1, parent), |ScopeAll(sc, es).names| + p + |es|);
    }
  }

  lemma LayStr(sc: Scope, e: Expr, p: nat)
    requires e.Str?
    ensures LayE(sc, e, p) == [Spot(|sc.names|, p)]
  {
  }

  lemma {:induction false} FlowsLeaf(ar: Arith, sc: Scope, e: Expr, p: nat, pending: bool)
    requires !IsOperation(e) && !(e.Assign? && e.target.Ident?) && FitsE(sc, e, pending)
    ensures Flows(CodeE(ar, sc, e), LayE(sc, e, p), |ScopeE(sc, e).names| + p + 1)
    ensures HeightAt(LayE(sc, e, p), |ScopeE(sc, e).names| + p + 1, 0) == |sc.names| + p
  {
    hide FoldBinary, FoldUnary, Flows, CodeAll, ScopeAll;
    var code := CodeE(ar, sc, e);
    LeafItem(ar, sc, e, pending);
    FlowsOne(code[0], Spot(|sc.names|, p), |sc.names| + p + 1);
  }

  lemma {:induction false} LeafItem(ar: Arith, sc: Scope, e: Expr, pending: bool)
    requires !IsOperation(e) && !(e.Assign? && e.target.Ident?) && FitsE(sc, e, pending)
    ensures var code := CodeE(ar, sc, e);
            && |code| == 1 && Continues(code[0]) && !(code[0].Plain? && IsJump(code[0].i))
            && EffectOf(code[0]).need <= |sc.names| && EffectOf(code[0]).change == 1
    ensures ScopeE(sc, e).names == sc.names
  {
    hide FoldBinary, FoldUnary, CodeAll, ScopeAll;
  }

  lemma {:induction false} FlowsStore(ar: Arith, sc: Scope, e: Expr, p: nat, pending: bool)
    requires e.Assign? && e.target.Ident? && FitsE(sc, e, pending)
    ensures Flows(CodeE(ar, sc, e), LayE(sc, e, p), |ScopeE(sc, e).names| + p + 1)
    ensures HeightAt(LayE(sc, e, p), |ScopeE(sc, e).names| + p + 1, 0) == |sc.names| + p
    decreases e, 0
  {
    hide Flows, CodeE, ScopeE, LayE, StoreNameCode, FitsE, ValueScope;
    var x, v := e.target.name, e.value;
    var sc1 := ScopeE(sc, v);
    var code := CodeE(ar, ValueScope(sc, x, v), v);
    StoreItem(ar, sc, e, pending);
    LayStore(sc, e, p);
    if v.Fn? {
      FlowsFn(ar, ValueScope(sc, x, v), sc, v, p);
    } else {
      FlowsE(ar, sc, v, p, pending);
    }
    var it := StoreNameCode(sc, x, e.op)[0];
    FlowsLast(code, LayE(sc, v, p), it, Spot(|sc1.names|, p + 1), |ScopeE(sc, e).names| + p + 1);
  }

  lemma LayStore(sc: Scope, e: Expr, p: nat)
    requires e.Assign? && e.target.Ident?
    ensures LayE(sc, e, p) == LayE(sc, e.value, p) + [Spot(|ScopeE(sc, e.value).names|, p + 1)]
  {
    hide ScopeE;
  }

  lemma FlowsFn(ar: Arith, inner: Scope, sc: Scope, v: Expr, p: nat)
    requires v.Fn?
    ensures Flows(CodeE(ar, inner, v), LayE(sc, v, p), |ScopeE(sc, v).names| + p + 1)
    ensures HeightAt(LayE(sc, v, p), |ScopeE(sc, v).names| + p + 1, 0) == |sc.names| + p
  {
    hide Flows;
    FlowsOne(CodeE(ar, inner, v)[0], Spot(|sc.names|, p), |sc.names| + p + 1);
  }

  lemma {:induction false} StoreItem(ar: Arith, sc: Scope, e: Expr, pending: bool)
    requires e.Assign? && e.target.Ident? && FitsE(sc, e, pending)
    ensures var x, v, store := e.target.name, e.value, StoreNameCode(sc, e.target.name, e.op);
            && CodeE(ar, sc, e) == CodeE(ar, ValueScope(sc, x, v), v) + store && store == [store[0]]
            && Continues(store[0]) && !(store[0].Plain? && IsJump(store[0].i))
            && (!v.Fn? ==> ValueScope(sc, x, v) == sc && FitsE(sc, v, pending))
            && EffectOf(store[0]).need <= |ScopeE(sc, v).names| + 1
            && |ScopeE(sc, e).names| == |ScopeE(sc, v).names| + EffectOf(store[0]).change
  {
    var Assign(op, t, v) := e;
    assert sc.names <= ScopeE(sc, v).names;
  }

  lemma {:induction false} ScopeOfParts(ar: Arith, sc: Scope, e: Expr)
    requires IsOperation(e)
    ensures ScopeAll(sc, Parts(e)) == ScopeE(sc, e)
  {
    hide CodeE, CodeAll, ScopeAll, ScopeO;
    match e
    case Subscript(t, i) =>
      CodeMore(ar, sc, i, [t]);
      CodeOnly(ar, ScopeE(sc, i), t);
    case Slice(t, from, to) => ScopeOfSlice(ar, sc, e);
    case Member(t, x) =>
      CodeMore(ar, sc, Expr.Str(x), [t]);
      CodeOnly(ar, sc, t);
    case Assign(_, _, _) => ScopeOfStore(ar, sc, e);
    case Unary(_, e1) => CodeOnly(ar, sc, e1);
    case Binary(_, l, r) =>
      CodeMore(ar, sc, l, [r]);
      CodeOnly(ar, ScopeE(sc, l), r);
    case Call(callee, args) => C.CodeAllLast(ar, sc, args, callee);
    case _ =>
  }

  lemma ScopeOption(sc: Scope, o: Option<Expr>, rest: seq<Expr>)
    ensures ScopeAll(sc, OptionalPart(o) + rest) == ScopeAll(ScopeO(sc, o), rest)
  {
    hide ScopeE;
    assert o.Some? ==> (OptionalPart(o) + rest)[1..] == rest;
    assert o.None? ==> OptionalPart(o) + rest == rest;
  }

  lemma {:induction false} ScopeOfSlice(ar: Arith, sc: Scope, e: Expr)
    requires e.Slice?
    ensures ScopeAll(sc, Parts(e)) == ScopeE(sc, e)
  {
    hide CodeE, CodeAll, ScopeAll, ScopeO, OptionalPart;
    var Slice(t, from, to) := e;
    ScopeOption(sc, to, OptionalPart(from) + [t]);
    ScopeOption(ScopeO(sc, to), from, [t]);
    CodeOnly(ar, ScopeO(ScopeO(sc, to), from), t);
  }

  lemma {:induction false} ScopeOfStore(ar: Arith, sc: Scope, e: Expr)
    requires StoresSub(e)
    ensures ScopeAll(sc, Parts(e)) == ScopeE(sc, e)
  {
    hide CodeE, CodeAll, ScopeAll;
    var Assign(_, t, v) := e;
    var sc1 := ScopeE(sc, v);
    match t
    case Subscript(t1, i) =>
      CodeMore(ar, sc, v, [i] + [t1]);
      CodeMore(ar, sc1, i, [t1]);
      CodeOnly(ar, ScopeE(sc1, i), t1);
    case Member(t1, x) =>
      CodeMore(ar, sc, v, [Expr.Str(x)] + [t1]);
      CodeMore(ar, sc1, Expr.Str(x), [t1]);
      CodeOnly(ar, sc1, t1);
  }

  // The counts of operands fit the instruction.
  predicate CountsFit(e: Expr) {
    match e
    case Array(items) => |items| < 0x1_0000_0000
    case MapLit(items) => |items| < 0x1_0000_0000 && |items| % 2 == 0
    case Call(_, args) => |args| < 0x100
    case _ => true
  }

  lemma FitsCounts(sc: Scope, e: Expr, pending: bool)
    requires FitsE(sc, e, pending)
    ensures CountsFit(e)
  {
    hide FitsAll, ScopeAll;
  }

  // The last instruction takes the operands away and leaves one value.
  predicate TakesParts(e: Expr)
    requires IsOperation(e)
  {
    && |LastCode(e)| == 1
    && var it := LastCode(e)[0];
       Continues(it) && !(it.Plain? && IsJump(it.i)) && EffectOf(it) == Effect(|Parts(e)|, 1 - |Parts(e)|)
  }

  lemma SliceEffect(e: Expr)
    requires e.Slice?
    ensures TakesParts(e)
  {
  }

  lemma CountedEffect(e: Expr)
    requires (e.Array? || e.MapLit? || e.Call?) && CountsFit(e)
    ensures TakesParts(e)
  {
  }

  lemma StoreEffect(e: Expr)
    requires StoresSub(e)
    ensures TakesParts(e)
  {
  }

  lemma SmallEffect(e: Expr)
    requires IsOperation(e) && (e.Subscript? || e.Member? || e.Unary? || e.Binary?)
    ensures TakesParts(e)
  {
  }

  lemma {:induction false} LastEffect(e: Expr)
    requires IsOperation(e) && CountsFit(e)
    ensures TakesParts(e)
  {
    hide TakesParts;
    if e.Slice? {
      SliceEffect(e);
    } else if e.Assign? {
      StoreEffect(e);
    } else if e.Array? || e.MapLit? || e.Call? {
      CountedEffect(e);
    } else {
      SmallEffect(e);
    }
  }

  // ----- loops -----

  lemma {:induction false} LandsOnce(code: seq<Item>, k: nat, i: nat, j: nat)
    requires Lands(code, k, i, false) && Lands(code, k, j, false)
    ensures i == j
  {
    hide Offset;
    if i < j {
      Apart(code, i, j);
    } else if j < i {
      Apart(code, j, i);
    }
  }

  lemma {:induction false} Apart(code: seq<Item>, i: nat, j: nat)
    requires i < j <= |code|
    ensures Offset(code, i) < Offset(code, j)
    decreases j
  {
    hide Offset;
    OffsetNext(code, j - 1);
    if i < j - 1 {
      Apart(code, i, j - 1);
    }
  }

  // The layout of a loop from those of its parts, where n locals are there at its start.
  function LayLoop(lc: seq<Spot>, lb: seq<Spot>, n: nat): seq<Spot> {
    lc + [Spot(n, 1)] + lb + [Spot(n, 0)]
  }

  // Every open jump stands at this height.
  predicate OpenAt(code: seq<Item>, lay: seq<Spot>, n: nat)
    requires |code| == |lay|
  {
    forall k | 0 <= k < |code| && (code[k].BreakHole? || code[k].ContinueHole?) :: lay[k].Height() == n
  }

  // The parts of a loop, each of which keeps its own layout.
  ghost predicate LoopParts(cc: seq<Item>, lc: seq<Spot>, cb: seq<Item>, lb: seq<Spot>, n: nat) {
    && Straight(cc) && Flows(cc, lc, n + 1) && HeightAt(lc, n + 1, 0) == n
    && Flows(cb, lb, n) && HeightAt(lb, n, 0) == n && Size(WhileCode(cc, cb)) < 0x1_0000
  }

  lemma {:induction false} LoopAt(cc: seq<Item>, lc: seq<Spot>, cb: seq<Item>, lb: seq<Spot>, n: nat, all: seq<Item>,
      lay: seq<Spot>)
    requires LoopParts(cc, lc, cb, lb, n) && all == WhileCode(cc, cb) && lay == LayLoop(lc, lb, n)
    ensures |cc| == |lc| && |cb| == |lb| && |all| == |lay| == |cc| + 1 + |cb| + 1
    ensures forall k | 0 <= k < |cc| :: all[k] == cc[k] && lay[k] == lc[k]
    ensures all[|cc|].Plain? && all[|cc|].i.PopJumpIfFalse? && lay[|cc|] == Spot(n, 1)
    ensures forall i | 0 <= i < |cb| :: lay[|cc| + 1 + i] == lb[i]
    ensures all[|all| - 1].Plain? && all[|all| - 1].i.Loop? && lay[|all| - 1] == Spot(n, 0)
    ensures HeightAt(lay, n, 0) == n && HeightAt(lay, n, |all|) == n
    ensures forall i | 0 <= i <= |cb| :: HeightAt(lay, n, |cc| + 1 + i) == HeightAt(lb, n, i)
  {
    hide FlowsAt, Straight, Size, Short16, Resolve;
  }

  /** In a loop whose parts keep their layouts, an open jump of the body arrives at the height that the layout has
      where it lands exactly if no local was declared since the loop began. */
  lemma {:induction false} OpenArrives(cc: seq<Item>, lc: seq<Spot>, cb: seq<Item>, lb: seq<Spot>, n: nat, i: nat)
    requires LoopParts(cc, lc, cb, lb, n) && i < |cb| == |lb| && |lc| == |cc|
        && (cb[i].BreakHole? || cb[i].ContinueHole?)
    ensures var all, lay, k := WhileCode(cc, cb), LayLoop(lc, lb, n), |cc| + 1 + i;
            && k < |all| == |lay|
            && (FlowsAt(all, lay, n, k) <==> lb[i].Height() == n)
  {
    hide Flows, Straight, Size, WhileCode, Lands, LayLoop;
    var all, lay, k := WhileCode(cc, cb), LayLoop(lc, lb, n), |cc| + 1 + i;
    LoopAt(cc, lc, cb, lb, n, all, lay);
    InLoop(cc, cb, i, all);
    var target := if cb[i].BreakHole? then |all| else 0;
    if cb[i].BreakHole? {
      BreakLands(cc, cb, i, false);
    } else {
      ContinueLands(cc, cb, i, false);
    }
    assert JumpAt(all, k) && EffectOf(all[k]) == Effect(0, 0) && !Continues(all[k]);
    if FlowsAt(all, lay, n, k) {
      var j: nat :| Arrives(all, lay, n, k, j);
      LandsOnce(all, k, j, target);
    }
    if lb[i].Height() == n {
      assert Arrives(all, lay, n, k, target);
    }
  }

  // The other items of a loop agree with its layout.
  lemma {:induction false} BodyArrives(cc: seq<Item>, lc: seq<Spot>, cb: seq<Item>, lb: seq<Spot>, n: nat, i: nat)
    requires LoopParts(cc, lc, cb, lb, n) && i < |cb| == |lb| && |lc| == |cc| && !cb[i].BreakHole?
        && !cb[i].ContinueHole?
    ensures var all, lay, k := WhileCode(cc, cb), LayLoop(lc, lb, n), |cc| + 1 + i;
            k < |all| == |lay| && FlowsAt(all, lay, n, k)
  {
    hide Straight, Size, WhileCode, Lands, LayLoop, EffectOf, Short16;
    var all, lay, k := WhileCode(cc, cb), LayLoop(lc, lb, n), |cc| + 1 + i;
    LoopAt(cc, lc, cb, lb, n, all, lay);
    InLoop(cc, cb, i, all);
    assert all[k] == cb[i] && FlowsAt(cb, lb, n, i);
    if JumpAt(all, k) {
      assert JumpAt(cb, i);
      var j: nat :| Arrives(cb, lb, n, i, j);
      LandsInLoop(cc, cb, i, j);
      assert Arrives(all, lay, n, k, |cc| + 1 + j);
    }
  }

  lemma {:induction false} LandsInLoop(cc: seq<Item>, cb: seq<Item>, i: nat, j: nat)
    requires Lands(cb, i, j, false)
    ensures j <= |cb| && Lands(WhileCode(cc, cb), |cc| + 1 + i, |cc| + 1 + j, false)
  {
    hide Size, Short16, Resolve, Lands;
    LandsInside(cb, i, j);
    var o := Size(cb) + 3;
    var jump, loop := [Plain(PopJumpIfFalse(Short16(o)))], [Plain(Loop(Short16(Size(cc) + 3 + Size(cb) + 3)))];
    var body, head := Resolve(cb, Size(cc) + 3, o), cc + jump;
    ResolveLands(cb, Size(cc) + 3, o, i, j, false);
    LandsRight(head, body, i, j, false);
    LandsLeft(head + body, loop, |head| + i, |head| + j, false);
    assert (head + body) + loop == WhileCode(cc, cb);
  }

  lemma {:induction false} ConditionArrives(cc: seq<Item>, lc: seq<Spot>, cb: seq<Item>, lb: seq<Spot>, n: nat, k: nat)
    requires LoopParts(cc, lc, cb, lb, n) && k < |cc| == |lc|
    ensures var all, lay := WhileCode(cc, cb), LayLoop(lc, lb, n);
            k < |all| == |lay| && FlowsAt(all, lay, n, k)
  {
    hide Size, WhileCode, Lands, LayLoop, EffectOf;
    var all, lay := WhileCode(cc, cb), LayLoop(lc, lb, n);
    LoopAt(cc, lc, cb, lb, n, all, lay);
    assert FlowsAt(cc, lc, n + 1, k) && cc[k] in cc;
    assert HeightAt(lay, n, k + 1) == HeightAt(lc, n + 1, k + 1);
  }

  lemma {:induction false} LoopEdges(cc: seq<Item>, lc: seq<Spot>, cb: seq<Item>, lb: seq<Spot>, n: nat,
      all: seq<Item>, lay: seq<Spot>)
    requires LoopParts(cc, lc, cb, lb, n) && all == WhileCode(cc, cb) && lay == LayLoop(lc, lb, n)
    ensures |cc| < |all| == |lay| && FlowsAt(all, lay, n, |cc|) && FlowsAt(all, lay, n, |all| - 1)
  {
    hide Size, Lands, LayLoop, Flows, Straight, Offset;
    LoopAt(cc, lc, cb, lb, n, all, lay);
    LoopEnds(cc, cb, all);
    hide WhileCode;
    assert Arrives(all, lay, n, |cc|, |all|) && Arrives(all, lay, n, |all| - 1, 0);
    assert HeightAt(lay, n, |cc| + 1 + 0) == HeightAt(lb, n, 0);
  }

  lemma {:induction false} LoopEnds(cc: seq<Item>, cb: seq<Item>, all: seq<Item>)
    requires all == WhileCode(cc, cb) && Straight(cc) && Size(all) < 0x1_0000
    ensures |cc| < |all| && Lands(all, |cc|, |all|, false) && Lands(all, |all| - 1, 0, false)
  {
    hide Offset, Size, Lands, Short16;
    var o, back := Size(cb) + 3, Size(cc) + 3 + Size(cb) + 3;
    var jump, body, loop := [Plain(PopJumpIfFalse(Short16(o)))], Resolve(cb, Size(cc) + 3, o),
        [Plain(Loop(Short16(back)))];
    WhileSizes(cc, cb, cc + jump, jump, body, loop, all);
    ToEnd(all, |cc|, false, cc, cb);
    ToStart(all, |all| - 1, false, cc, cb);
  }

  /** A loop whose parts keep their layouts keeps its own exactly if no break or continue leaves a block that has
      declared a local. */
  lemma {:induction false} LoopFlows(cc: seq<Item>, lc: seq<Spot>, cb: seq<Item>, lb: seq<Spot>, n: nat)
    requires LoopParts(cc, lc, cb, lb, n) && |cb| == |lb|
    ensures Flows(WhileCode(cc, cb), LayLoop(lc, lb, n), n) <==> OpenAt(cb, lb, n)
  {
    hide LoopParts, Size, WhileCode, LayLoop, FlowsAt;
    var all, lay := WhileCode(cc, cb), LayLoop(lc, lb, n);
    LoopAt(cc, lc, cb, lb, n, all, lay);
    if Flows(all, lay, n) {
      forall i | 0 <= i < |cb| && (cb[i].BreakHole? || cb[i].ContinueHole?) ensures lb[i].Height() == n {
        OpenArrives(cc, lc, cb, lb, n, i);
        assert FlowsAt(all, lay, n, |cc| + 1 + i);
      }
    }
    if OpenAt(cb, lb, n) {
      forall k: nat | k < |all| ensures FlowsAt(all, lay, n, k) {
        LoopEdges(cc, lc, cb, lb, n, all, lay);
        if k < |cc| {
          ConditionArrives(cc, lc, cb, lb, n, k);
        } else if |cc| < k < |all| - 1 {
          var i := k - |cc| - 1;
          if cb[i].BreakHole? || cb[i].ContinueHole? {
            OpenArrives(cc, lc, cb, lb, n, i);
          } else {
            BodyArrives(cc, lc, cb, lb, n, i);
          }
        }
      }
    }
  }

  // ----- conditionals -----

  // A jump over the code that follows it.
  lemma {:induction false} FlowsForward(i: Instr, spot: Spot, skipped: seq<Item>, ls: seq<Spot>, rest: seq<Item>,
      lr: seq<Spot>, h: nat, out: nat)
    requires (i.PopJumpIfFalse? || i.Jump?) && i.offset == Size(skipped)
        && spot.Height() == if i.Jump? then h else h + 1
    requires Flows(skipped + rest, ls + lr, out) && |skipped| == |ls| && |rest| == |lr|
    requires HeightAt(ls + lr, out, |skipped|) == h && (i.PopJumpIfFalse? ==> HeightAt(ls + lr, out, 0) == h)
    ensures Flows([Plain(i)] + (skipped + rest), [spot] + (ls + lr), out)
  {
    var jump, code, lay := [Plain(i)], skipped + rest, ls + lr;
    var all, layAll := jump + code, [spot] + lay;
    hide FlowsAt, Size;
    forall k: nat | k < |all| ensures FlowsAt(all, layAll, out, k) {
      if k == 0 {
        ForwardFlows(i, spot, skipped, rest, lay, h, out);
      } else {
        FlowsShifted(jump, [spot], code, lay, out, k - 1);
      }
    }
  }

  lemma {:induction false} ForwardFlows(i: Instr, spot: Spot, skipped: seq<Item>, rest: seq<Item>, lay: seq<Spot>,
      h: nat, out: nat)
    requires (i.PopJumpIfFalse? || i.Jump?) && i.offset == Size(skipped)
        && spot.Height() == if i.Jump? then h else h + 1
    requires |skipped + rest| == |lay|
    requires HeightAt(lay, out, |skipped|) == h && (i.PopJumpIfFalse? ==> HeightAt(lay, out, 0) == h)
    ensures FlowsAt([Plain(i)] + (skipped + rest), [spot] + lay, out, 0)
  {
    var all, layAll := [Plain(i)] + (skipped + rest), [spot] + lay;
    ForwardLands(i, skipped, rest, all);
    hide Size, Lands;
    assert HeightAt(layAll, out, 1) == HeightAt(lay, out, 0);
    assert HeightAt(layAll, out, 1 + |skipped|) == HeightAt(lay, out, |skipped|);
    assert Arrives(all, layAll, out, 0, 1 + |skipped|);
  }

  lemma {:induction false} ForwardLands(i: Instr, skipped: seq<Item>, rest: seq<Item>, all: seq<Item>)
    requires (i.PopJumpIfFalse? || i.Jump?) && i.offset == Size(skipped) && all == [Plain(i)] + (skipped + rest)
    ensures Lands(all, 0, 1 + |skipped|, false)
  {
    var jump, code := [Plain(i)], skipped + rest;
    OffsetRight(jump, code, |skipped|);
    OffsetRight(jump, code, 0);
    OffsetLeft(skipped, rest, |skipped|);
    assert skipped[..|skipped|] == skipped;
  }

  // A conditional whose parts keep their layouts, each with n locals before and after, keeps its own.
  lemma {:induction false} FlowsIf(cc: seq<Item>, lc: seq<Spot>, a: seq<Item>, la: seq<Spot>, b: seq<Item>,
      lb: seq<Spot>, n: nat, start: nat)
    requires Flows(cc, lc, n + 1) && HeightAt(lc, n + 1, 0) == start
    requires Flows(a, la, n) && HeightAt(la, n, 0) == n && Flows(b, lb, n) && HeightAt(lb, n, 0) == n
    requires Size(IfCode(cc, a, b)) < 0x1_0000
    ensures Flows(IfCode(cc, a, b), lc + [Spot(n, 1)] + la + [Spot(n, 0)] + lb, n)
    ensures HeightAt(lc + [Spot(n, 1)] + la + [Spot(n, 0)] + lb, n, 0) == start
  {
    hide FlowsAt, Size, Short16;
    var i, j := PopJumpIfFalse(Short16(Size(a) + 3)), Jump(Short16(Size(b)));
    var s, t := Spot(n, 1), Spot(n, 0);
    IfSizes(cc, [Plain(i)], a, [Plain(j)], b, IfCode(cc, a, b));
    OffsetFits(Size(a) + 3);
    OffsetFits(Size(b));
    assert b + [] == b && lb + [] == lb;
    FlowsForward(j, t, b, lb, [], [], n, n);
    var tail, layTail := [Plain(j)] + b, [t] + lb;
    FlowsAppend(a, la, n, tail, layTail, n);
    var over, layOver := a + [Plain(j)], la + [t];
    assert over + b == a + tail && layOver + lb == la + layTail;
    FlowsForward(i, s, over, layOver, b, lb, n, n);
    FlowsAppend(cc, lc, n + 1, [Plain(i)] + (over + b), [s] + (layOver + lb), n);
    assert cc + ([Plain(i)] + (over + b)) == IfCode(cc, a, b);
    assert lc + ([s] + (layOver + lb)) == lc + [s] + la + [t] + lb;
  }

  lemma {:induction false} OpenIf(cc: seq<Item>, lc: seq<Spot>, i: Item, s: Spot, a: seq<Item>, la: seq<Spot>, j: Item,
      t: Spot, b: seq<Item>, lb: seq<Spot>, n: nat)
    requires Straight(cc) && |cc| == |lc| && |a| == |la| && |b| == |lb| && i.Plain? && j.Plain? && OpenAt(a, la, n)
        && OpenAt(b, lb, n)
    ensures OpenAt(cc + [i] + a + [j] + b, lc + [s] + la + [t] + lb, n)
  {
    var code, lay := cc + [i] + a + [j] + b, lc + [s] + la + [t] + lb;
    assert forall k | 0 <= k < |cc| :: cc[k] in cc;
    forall k | 0 <= k < |code| && (code[k].BreakHole? || code[k].ContinueHole?) ensures lay[k].Height() == n {
      if k > |cc| + |a| + 1 {
        assert code[k] == b[k - |cc| - |a| - 2] && lay[k] == lb[k - |cc| - |a| - 2];
      } else if |cc| < k <= |cc| + |a| {
        assert code[k] == a[k - |cc| - 1] && lay[k] == la[k - |cc| - 1];
      }
    }
  }

  lemma {:induction false} OpenAppend(a: seq<Item>, la: seq<Spot>, b: seq<Item>, lb: seq<Spot>, n: nat)
    requires |a| == |la| && |b| == |lb| && OpenAt(a, la, n) && OpenAt(b, lb, n)
    ensures OpenAt(a + b, la + lb, n)
  {
  }

  lemma OpenNone(a: seq<Item>, la: seq<Spot>, n: nat)
    requires |a| == |la| && HoleFree(a)
    ensures OpenAt(a, la, n)
  {
    assert forall k | 0 <= k < |a| :: a[k] in a;
  }

  // ----- statements -----

  // The layout of a statement: it leaves the locals it declared, and open jumps stand where the loop began.
  ghost predicate Keeps(code: seq<Item>, lay: seq<Spot>, start: nat, out: nat, loop: Option<nat>) {
    && Flows(code, lay, out) && HeightAt(lay, out, 0) == start
    && if loop.Some? then OpenAt(code, lay, loop.value) else HoleFree(code)
  }

  lemma {:induction false} KeepsStraight(code: seq<Item>, lay: seq<Spot>, start: nat, out: nat, loop: Option<nat>)
    requires Flows(code, lay, out) && HeightAt(lay, out, 0) == start && HoleFree(code)
    ensures Keeps(code, lay, start, out, loop)
  {
    hide FlowsAt;
    if loop.Some? {
      OpenNone(code, lay, loop.value);
    }
  }

  lemma {:induction false} KeepsAppend(a: seq<Item>, la: seq<Spot>, start: nat, mid: nat, b: seq<Item>, lb: seq<Spot>,
      out: nat, loop: Option<nat>)
    requires Keeps(a, la, start, mid, loop) && Keeps(b, lb, mid, out, loop)
    ensures Keeps(a + b, la + lb, start, out, loop)
  {
    hide FlowsAt, OpenAt;
    FlowsAppend(a, la, mid, b, lb, out);
    if loop.Some? {
      OpenAppend(a, la, b, lb, loop.value);
    } else {
      HoleFreeAppend(a, b);
    }
  }

  lemma {:induction false} KeepsS(ar: Arith, sc: Scope, s: Stmt, loop: Option<nat>)
    requires FitsS(sc, s, loop) && Size(CodeS(ar, sc, s)) < 0x1_0000
    ensures Keeps(CodeS(ar, sc, s), LayS(sc, s), |sc.names|, |ScopeS(sc, s).names|, loop)
    decreases s, 1
  {
    hide CodeE, ScopeE, LayE, FitsE, Size, Keeps, IfCode, WhileCode, Pops, LayPops;
    match s
    case Block(body) =>
      var after := ScopeBody(sc, body);
      var d := |after.names| - |sc.names|;
      SizeAppend(CodeBody(ar, sc, body), Pops(d));
      KeepsBody(ar, sc, body, loop);
      KeepsPops(d, |after.names|, loop);
      KeepsAppend(CodeBody(ar, sc, body), LayBody(sc, body), |sc.names|, |after.names|, Pops(d),
          LayPops(d, |after.names|), |sc.names|, loop);
    case Return(e) => KeepsSimple(ar, sc, e, ReturnOp, |ScopeE(sc, e).names|, loop);
    case While(cond, body) => KeepsWhile(ar, sc, cond, body, loop);
    case If(cond, a, b) => KeepsIf(ar, sc, cond, a, b, loop);
    case Break => KeepsHole(BreakHole, Spot(|sc.names|, 0), loop);
    case Continue => KeepsHole(ContinueHole, Spot(|sc.names|, 0), loop);
    case ExprStmt(e) => KeepsSimple(ar, sc, e, Pop, |ScopeE(sc, e).names|, loop);
  }

  lemma {:induction false} KeepsBody(ar: Arith, sc: Scope, body: seq<Stmt>, loop: Option<nat>)
    requires FitsBody(sc, body, loop) && Size(CodeBody(ar, sc, body)) < 0x1_0000
    ensures Keeps(CodeBody(ar, sc, body), LayBody(sc, body), |sc.names|, |ScopeBody(sc, body).names|, loop)
    decreases body, 0
  {
    hide CodeS, ScopeS, LayS, FitsS, Size, Keeps;
    if body == [] {
      KeepsNothing(|sc.names|, loop);
    } else {
      var first, sc1 := CodeS(ar, sc, body[0]), ScopeS(sc, body[0]);
      SizeAppend(first, CodeBody(ar, sc1, body[1..]));
      KeepsS(ar, sc, body[0], loop);
      KeepsBody(ar, sc1, body[1..], loop);
      KeepsAppend(first, LayS(sc, body[0]), |sc.names|, |sc1.names|, CodeBody(ar, sc1, body[1..]),
          LayBody(sc1, body[1..]), |ScopeBody(sc, body).names|, loop);
    }
  }

  lemma KeepsNothing(n: nat, loop: Option<nat>)
    ensures Keeps([], [], n, n, loop)
  {
  }

  lemma KeepsHole(it: Item, spot: Spot, loop: Option<nat>)
    requires (it.BreakHole? || it.ContinueHole?) && loop == Some(spot.Height())
    ensures Keeps([it], [spot], spot.Height(), spot.Height(), loop)
  {
  }

  lemma {:induction false} KeepsPops(d: nat, top: nat, loop: Option<nat>)
    requires d <= top
    ensures Keeps(Pops(d), LayPops(d, top), top, top - d, loop)
  {
    hide Pops, LayPops, Flows;
    FlowsPops(d, top);
    C.HoleFreePops(d);
    KeepsStraight(Pops(d), LayPops(d, top), top, top - d, loop);
  }

  lemma {:induction false} KeepsSimple(ar: Arith, sc: Scope, e: Expr, i: Instr, n: nat, loop: Option<nat>)
    requires FitsE(sc, e, false) && (i == ReturnOp || i == Pop) && n == |ScopeE(sc, e).names|
    ensures Keeps(CodeE(ar, sc, e) + [Plain(i)], LayE(sc, e, 0) + [Spot(n, 1)], |sc.names|, n, loop)
  {
    hide CodeE, ScopeE, LayE, FitsE, Flows;
    var code, lay := CodeE(ar, sc, e), LayE(sc, e, 0);
    FlowsE(ar, sc, e, 0, false);
    FlowsLast(code, lay, Plain(i), Spot(n, 1), n);
    HoleFreeE(ar, sc, e);
    C.HoleFreePlain(i);
    HoleFreeAppend(code, [Plain(i)]);
    KeepsStraight(code + [Plain(i)], lay + [Spot(n, 1)], |sc.names|, n, loop);
  }

  lemma {:induction false} KeepsWhile(ar: Arith, sc: Scope, cond: Expr, body: Stmt, loop: Option<nat>)
    requires FitsS(sc, While(cond, body), loop) && Size(CodeS(ar, sc, While(cond, body))) < 0x1_0000
    ensures Keeps(CodeS(ar, sc, While(cond, body)), LayS(sc, While(cond, body)), |sc.names|, |sc.names|, loop)
    decreases While(cond, body), 0
  {
    hide CodeE, ScopeE, LayE, FitsE, Size, WhileCode, FlowsAt, OpenAt, HoleFree;
    var cc, cb, n := CodeE(ar, sc, cond), CodeS(ar, sc, body), |sc.names|;
    var lc, lb := LayE(sc, cond, 0), LayS(sc, body);
    WhileParts(cc, cb);
    FlowsE(ar, sc, cond, 0, false);
    StraightE(ar, sc, cond);
    KeepsS(ar, sc, body, Some(n));
    LoopFlows(cc, lc, cb, lb, n);
    StraightHoleFree(cc);
    WhileHoleFree(cc, cb);
    LoopAt(cc, lc, cb, lb, n, WhileCode(cc, cb), LayLoop(lc, lb, n));
    assert LayS(sc, While(cond, body)) == LayLoop(lc, lb, n);
    KeepsStraight(WhileCode(cc, cb), LayLoop(lc, lb, n), n, n, loop);
  }

  lemma {:induction false} KeepsIf(ar: Arith, sc: Scope, cond: Expr, a: Stmt, b: Option<Stmt>, loop: Option<nat>)
    requires FitsS(sc, If(cond, a, b), loop) && Size(CodeS(ar, sc, If(cond, a, b))) < 0x1_0000
    ensures Keeps(CodeS(ar, sc, If(cond, a, b)), LayS(sc, If(cond, a, b)), |sc.names|,
        |ScopeS(sc, If(cond, a, b)).names|, loop)
    decreases If(cond, a, b), 0
  {
    hide CodeE, ScopeE, LayE, FitsE, Size, IfCode, FlowsAt, OpenAt, HoleFree, Straight;
    var sc1 := ScopeE(sc, cond);
    var cc, ca, n := CodeE(ar, sc, cond), CodeS(ar, sc1, a), |sc1.names|;
    var cb := if b.Some? then CodeS(ar, sc1, b.value) else [];
    var lc, la, lb := LayE(sc, cond, 0), LayS(sc1, a), if b.Some? then LayS(sc1, b.value) else [];
    IfParts(cc, ca, cb);
    FlowsE(ar, sc, cond, 0, false);
    StraightE(ar, sc, cond);
    KeepsS(ar, sc1, a, loop);
    if b.Some? {
      KeepsS(ar, sc1, b.value, loop);
    } else {
      KeepsNothing(n, loop);
    }
    FlowsIf(cc, lc, ca, la, cb, lb, n, |sc.names|);
    IfOpen(cc, lc, ca, la, cb, lb, n, loop);
  }

  lemma {:induction false} IfOpen(cc: seq<Item>, lc: seq<Spot>, a: seq<Item>, la: seq<Spot>, b: seq<Item>,
      lb: seq<Spot>, n: nat, loop: Option<nat>)
    requires Straight(cc) && |cc| == |lc| && |a| == |la| && |b| == |lb|
    requires if loop.Some? then OpenAt(a, la, loop.value) && OpenAt(b, lb, loop.value) else HoleFree(a) && HoleFree(b)
    ensures |IfCode(cc, a, b)| == |lc + [Spot(n, 1)] + la + [Spot(n, 0)] + lb|
    ensures if loop.Some? then OpenAt(IfCode(cc, a, b), lc + [Spot(n, 1)] + la + [Spot(n, 0)] + lb, loop.value)
        else HoleFree(IfCode(cc, a, b))
  {
    hide OpenAt, Size, HoleFree, Straight;
    if loop.Some? {
      OpenIf(cc, lc, Plain(PopJumpIfFalse(Short16(Size(a) + 3))), Spot(n, 1), a, la, Plain(Jump(Short16(Size(b)))),
          Spot(n, 0), b, lb, loop.value);
    } else {
      StraightHoleFree(cc);
      C.HoleFreeIf(cc, a, b);
    }
  }

  // ----- whole listings -----

  // The layout of the final return of null.
  function LayEnding(n: nat): seq<Spot> {
    [Spot(n, 0), Spot(n, 1)]
  }

  function FunctionLayout(f: Function): seq<Spot> {
    var sc := Scope(false, f.params);
    LayS(sc, f.code) + LayEnding(|ScopeS(sc, f.code).names|)
  }

  function ProgramLayout(program: seq<Stmt>): seq<Spot> {
    LayS(Scope(true, []), Block(program)) + LayEnding(0)
  }

  lemma {:induction false} KeepsEnding(n: nat)
    ensures Keeps(ENDING, LayEnding(n), n, n, None)
  {
  }

  lemma {:induction false} Whole(ar: Arith, sc: Scope, s: Stmt)
    requires FitsS(sc, s, None) && Size(CodeS(ar, sc, s) + ENDING) < 0x1_0000
    ensures var n := |ScopeS(sc, s).names|;
            Keeps(CodeS(ar, sc, s) + ENDING, LayS(sc, s) + LayEnding(n), |sc.names|, n, None)
  {
    hide CodeS, ScopeS, LayS, FitsS, Size, Keeps, LayEnding;
    var n := |ScopeS(sc, s).names|;
    SizeAppend(CodeS(ar, sc, s), ENDING);
    KeepsS(ar, sc, s, None);
    KeepsEnding(n);
    KeepsAppend(CodeS(ar, sc, s), LayS(sc, s), |sc.names|, n, ENDING, LayEnding(n), n, None);
  }

  /** The layout of every function and program of the domain agrees along every edge of its code; it starts with
      the parameters. */
  lemma {:induction false} FunctionKeepsLayout(ar: Arith, f: Function)
    requires FitsFunction(ar, f)
    ensures Keeps(FunctionCode(ar, f), FunctionLayout(f), |f.params|, |ScopeS(Scope(false, f.params), f.code).names|,
        None)
  {
    hide CodeS, ScopeS, LayS, FitsS, Size, Keeps;
    Whole(ar, Scope(false, f.params), f.code);
  }

  lemma {:induction false} ProgramKeepsLayout(ar: Arith, program: seq<Stmt>)
    requires FitsProgram(ar, program)
    ensures Keeps(ProgramCode(ar, program), ProgramLayout(program), 0, 0, None)
  {
    hide CodeS, LayS, FitsS, Size, Keeps;
    Whole(ar, Scope(true, []), Block(program));
  }

  // ----- breaks that leave locals behind -----

  /** A loop of the source keeps its layout exactly if none of its breaks and continues stands where a local has
      been declared since the loop began. */
  lemma {:induction false} WhileKeepsLayout(ar: Arith, sc: Scope, cond: Expr, body: Stmt)
    requires FitsE(sc, cond, false) && ScopeE(sc, cond) == sc && ScopeS(sc, body) == sc
    requires Size(CodeS(ar, sc, While(cond, body))) < 0x1_0000
    requires Flows(CodeS(ar, sc, body), LayS(sc, body), |sc.names|)
        && HeightAt(LayS(sc, body), |sc.names|, 0) == |sc.names|
    ensures Flows(CodeS(ar, sc, While(cond, body)), LayS(sc, While(cond, body)), |sc.names|) <==>
            OpenAt(CodeS(ar, sc, body), LayS(sc, body), |sc.names|)
  {
    hide CodeE, ScopeE, LayE, FitsE, Size, WhileCode, FlowsAt, OpenAt, HoleFree;
    var cc, cb, n := CodeE(ar, sc, cond), CodeS(ar, sc, body), |sc.names|;
    FlowsE(ar, sc, cond, 0, false);
    StraightE(ar, sc, cond);
    LoopFlows(cc, LayE(sc, cond, 0), cb, LayS(sc, body), n);
    assert LayS(sc, While(cond, body)) == LayLoop(LayE(sc, cond, 0), LayS(sc, body), n);
  }

  lemma {:induction false} LayBodyLast(ar: Arith, sc: Scope, body: seq<Stmt>, s: Stmt)
    ensures LayBody(sc, body + [s]) == LayBody(sc, body) + LayS(ScopeBody(sc, body), s)
    decreases |body|
  {
    hide LayS, ScopeS;
    if body == [] {
      assert [s][1..] == [] && [] + [s] == [s];
    } else {
      LayBodyLast(ar, ScopeS(sc, body[0]), body[1..], s);
      assert (body + [s])[1..] == body[1..] + [s];
    }
  }

  /** A loop whose body is a block that ends in a break keeps its layout exactly if the block declares no local
      before it. */
  lemma {:induction false} BreakAtEnd(ar: Arith, sc: Scope, cond: Expr, before: seq<Stmt>)
    requires FitsE(sc, cond, false) && ScopeE(sc, cond) == sc && FitsBody(sc, before, None)
    requires Size(CodeS(ar, sc, While(cond, Block(before + [Stmt.Break])))) < 0x1_0000
    ensures var loop := While(cond, Block(before + [Stmt.Break]));
            Flows(CodeS(ar, sc, loop), LayS(sc, loop), |sc.names|) <==> ScopeBody(sc, before) == sc
  {
    hide CodeE, ScopeE, LayE, FitsE, FitsBody, Size, WhileCode, CodeBody, LayBody, ScopeBody, Pops, LayPops, Flows,
        HoleFree;
    var body := before + [Stmt.Break];
    var after, n := ScopeBody(sc, before), |sc.names|;
    var d := |after.names| - n;
    var a, la := CodeBody(ar, sc, before), LayBody(sc, before);
    C.CodeBodyLast(ar, sc, before, Stmt.Break);
    LayBodyLast(ar, sc, before, Stmt.Break);
    WhileParts(CodeE(ar, sc, cond), CodeS(ar, sc, Block(body)));
    BlockParts(a, [BreakHole], Pops(d));
    KeepsBody(ar, sc, before, None);
    FlowsOne(BreakHole, Spot(|after.names|, 0), |after.names|);
    FlowsPops(d, |after.names|);
    EndsInBreak(a, la, n, d, Pops(d), LayPops(d, |after.names|));
    WhileKeepsLayout(ar, sc, cond, Block(body));
    assert sc.names <= after.names && after.top == sc.top;
    assert |after.names| == n ==> after.names == sc.names;
  }

  lemma BlockParts(a: seq<Item>, b: seq<Item>, c: seq<Item>)
    ensures Size(a + b + c) >= Size(a)
  {
    hide Size;
    SizeAppend(a, b);
    SizeAppend(a + b, c);
  }

  lemma {:induction false} EndsInBreak(a: seq<Item>, la: seq<Spot>, n: nat, d: nat, pops: seq<Item>, lp: seq<Spot>)
    requires Keeps(a, la, n, n + d, None) && Flows(pops, lp, n) && HeightAt(lp, n, 0) == n + d && pops == Pops(d)
    ensures var code, lay := a + [BreakHole] + pops, la + [Spot(n + d, 0)] + lp;
            && Flows(code, lay, n) && HeightAt(lay, n, 0) == n && (OpenAt(code, lay, n) <==> d == 0)
  {
    hide FlowsAt;
    var code, lay := a + [BreakHole] + pops, la + [Spot(n + d, 0)] + lp;
    FlowsOne(BreakHole, Spot(n + d, 0), n + d);
    FlowsAppend(a, la, n + d, [BreakHole], [Spot(n + d, 0)], n + d);
    FlowsAppend(a + [BreakHole], la + [Spot(n + d, 0)], n + d, pops, lp, n);
    assert code[|a|] == BreakHole && lay[|a|] == Spot(n + d, 0);
    assert forall k | 0 <= k < |a| :: a[k] in a;
  }
}

/**
 The conditions of the domain on statements are exact for the layout of the stack: where the expressions of a
 statement are in the domain, the layout agrees along every edge of its code if and only if no arm, loop body or
 loop condition declares a local and no break or continue leaves a block that has one.
 */
module Settled {
  import opened Syntax
  import opened Arithmetic
  import opened Bytecode
  import opened Assembly
  import opened Codegen
  import opened Domain
  import opened Operands
  import opened Jumps
  import opened Layout

  // ----- the two sides of the domain -----

  // The expressions of a statement are in the domain, each with the names that the compiler knows there.
  predicate ExprsFit(sc: Scope, s: Stmt)
    decreases s
  {
    match s
    case Block(body) => ExprsFitBody(sc, body)
    case Return(e) => FitsE(sc, e, false)
    case While(cond, body) => FitsE(sc, cond, false) && ExprsFit(ScopeE(sc, cond), body)
    case If(cond, a, b) =>
      var sc1 := ScopeE(sc, cond);
      FitsE(sc, cond, false) && ExprsFit(sc1, a) && (b.Some? ==> ExprsFit(ScopeS(sc1, a), b.value))
    case Break => true
    case Continue => true
    case ExprStmt(e) => FitsE(sc, e, false)
  }

  predicate ExprsFitBody(sc: Scope, body: seq<Stmt>)
    decreases body
  {
    body == [] || (ExprsFit(sc, body[0]) && ExprsFitBody(ScopeS(sc, body[0]), body[1..]))
  }

  // Locals are declared by the statements of a block alone, and no jump leaves a block that has declared one.
  predicate SettledS(sc: Scope, s: Stmt, loop: Option<nat>)
    decreases s
  {
    match s
    case Block(body) => SettledBody(sc, body, loop)
    case Return(_) => true
    case While(cond, body) =>
      ScopeE(sc, cond) == sc && ScopeS(sc, body) == sc && SettledS(sc, body, Some(|sc.names|))
    case If(cond, a, b) =>
      var sc1 := ScopeE(sc, cond);
      && ScopeS(sc1, a) == sc1 && SettledS(sc1, a, loop)
      && (b.Some? ==> ScopeS(sc1, b.value) == sc1 && SettledS(sc1, b.value, loop))
    case Break => loop == Some(|sc.names|)
    case Continue => loop == Some(|sc.names|)
    case ExprStmt(_) => true
  }

  predicate SettledBody(sc: Scope, body: seq<Stmt>, loop: Option<nat>)
    decreases body
  {
    body == [] || (SettledS(sc, body[0], loop) && SettledBody(ScopeS(sc, body[0]), body[1..], loop))
  }

  lemma {:induction false} FitsIsBoth(sc: Scope, s: Stmt, loop: Option<nat>)
    ensures FitsS(sc, s, loop) <==> ExprsFit(sc, s) && SettledS(sc, s, loop)
    decreases s
  {
    hide FitsE, ScopeE;
    match s
    case Block(body) => FitsIsBothBody(sc, body, loop);
    case While(cond, body) => FitsIsBoth(ScopeE(sc, cond), body, Some(|sc.names|));
    case If(cond, a, b) =>
      var sc1 := ScopeE(sc, cond);
      FitsIsBoth(sc1, a, loop);
      if b.Some? {
        FitsIsBoth(sc1, b.value, loop);
      }
    case _ =>
  }

  lemma {:induction false} FitsIsBothBody(sc: Scope, body: seq<Stmt>, loop: Option<nat>)
    ensures FitsBody(sc, body, loop) <==> ExprsFitBody(sc, body) && SettledBody(sc, body, loop)
    decreases body
  {
    hide FitsS, ExprsFit, SettledS;
    if body != [] {
      FitsIsBoth(sc, body[0], loop);
      FitsIsBothBody(ScopeS(sc, body[0]), body[1..], loop);
    }
  }

  // ----- a layout agrees along the edges of each part -----

  lemma {:induction false} FlowsMiddle(left: seq<Item>, ll: seq<Spot>, part: seq<Item>, lp: seq<Spot>,
      right: seq<Item>, lr: seq<Spot>, all: seq<Item>, lay: seq<Spot>, out: nat, mid: nat)
    requires |left| == |ll| && |part| == |lp| && |right| == |lr|
    requires all == left + part + right && lay == ll + lp + lr && mid == HeightAt(lr, out, 0)
    requires WellPlaced(part, false) && Flows(all, lay, out)
    ensures Flows(part, lp, mid)
  {
    hide FlowsAt, WellPlaced;
    forall k: nat | k < |part| ensures FlowsAt(part, lp, mid, k) {
      assert FlowsAt(all, lay, out, |left| + k);
      MiddleAt(left, ll, part, lp, right, lr, all, lay, out, mid, k);
    }
  }

  lemma {:induction false} MiddleAt(left: seq<Item>, ll: seq<Spot>, part: seq<Item>, lp: seq<Spot>,
      right: seq<Item>, lr: seq<Spot>, all: seq<Item>, lay: seq<Spot>, out: nat, mid: nat, k: nat)
    requires |left| == |ll| && |part| == |lp| && |right| == |lr| && k < |part|
    requires all == left + part + right && lay == ll + lp + lr && mid == HeightAt(lr, out, 0)
    requires WellPlaced(part, false) && FlowsAt(all, lay, out, |left| + k)
    ensures FlowsAt(part, lp, mid, k)
  {
    hide Lands, EffectOf;
    assert all[|left| + k] == part[k] && lay[|left| + k] == lp[k];
    assert forall i: nat | i <= |part| :: HeightAt(lay, out, |left| + i) == HeightAt(lp, mid, i);
    if JumpAt(part, k) {
      var j: nat :| Lands(part, k, j, false);
      LandsInside(part, k, j);
      LandsRight(left, part, k, j, false);
      LandsLeft(left + part, right, |left| + k, |left| + j, false);
      assert JumpAt(all, |left| + k);
      var j1: nat :| Arrives(all, lay, out, |left| + k, j1);
      LandsOnce(all, |left| + k, j1, |left| + j);
      assert HeightAt(lay, out, |left| + j) == HeightAt(lp, mid, j);
      assert Arrives(part, lp, mid, k, j);
    }
  }

  // The same with the open jumps of the part.
  lemma {:induction false} KeepsMiddle(left: seq<Item>, ll: seq<Spot>, part: seq<Item>, lp: seq<Spot>,
      right: seq<Item>, lr: seq<Spot>, all: seq<Item>, lay: seq<Spot>, start: nat, out: nat, first: nat, mid: nat,
      loop: Option<nat>)
    requires |left| == |ll| && |part| == |lp| && |right| == |lr|
    requires all == left + part + right && lay == ll + lp + lr && mid == HeightAt(lr, out, 0)
    requires WellPlaced(part, false) && Keeps(all, lay, start, out, loop) && HeightAt(lp, mid, 0) == first
    ensures Keeps(part, lp, first, mid, loop)
  {
    hide FlowsAt, WellPlaced;
    FlowsMiddle(left, ll, part, lp, right, lr, all, lay, out, mid);
    if loop.Some? {
      forall k | 0 <= k < |part| && (part[k].BreakHole? || part[k].ContinueHole?)
        ensures lp[k].Height() == loop.value
      {
        assert all[|left| + k] == part[k] && lay[|left| + k] == lp[k];
      }
    } else {
      forall it | it in part ensures it in all {
      }
    }
  }

  lemma {:induction false} KeepsTwo(a: seq<Item>, la: seq<Spot>, b: seq<Item>, lb: seq<Spot>, start: nat, mid: nat,
      out: nat, loop: Option<nat>)
    requires |a| == |la| && |b| == |lb| && WellPlaced(a, false) && WellPlaced(b, false)
    requires HeightAt(la, mid, 0) == start && HeightAt(lb, out, 0) == mid && Keeps(a + b, la + lb, start, out, loop)
    ensures Keeps(a, la, start, mid, loop) && Keeps(b, lb, mid, out, loop)
  {
    hide Keeps, WellPlaced;
    assert [] + a + b == a + b && a + b + [] == a + b;
    assert [] + la + lb == la + lb && la + lb + [] == la + lb;
    KeepsMiddle([], [], a, la, b, lb, a + b, la + lb, start, out, start, mid, loop);
    KeepsMiddle(a, la, b, lb, [], [], a + b, la + lb, start, out, mid, out, loop);
  }

  // ----- where a layout starts -----

  lemma HeightTwo(la: seq<Spot>, lb: seq<Spot>, out: nat)
    ensures HeightAt(la + lb, out, 0) == HeightAt(la, HeightAt(lb, out, 0), 0)
  {
  }

  // One spot for each instruction, and the locals of the scope at the first.
  ghost predicate Laid(code: seq<Item>, lay: seq<Spot>, start: nat, out: nat) {
    |code| == |lay| && HeightAt(lay, out, 0) == start
  }

  lemma LaidTwo(a: seq<Item>, la: seq<Spot>, b: seq<Item>, lb: seq<Spot>, start: nat, mid: nat, out: nat)
    requires Laid(a, la, start, mid) && Laid(b, lb, mid, out)
    ensures Laid(a + b, la + lb, start, out)
  {
    HeightTwo(la, lb, out);
  }

  lemma {:induction false} LaidE(ar: Arith, sc: Scope, e: Expr)
    requires FitsE(sc, e, false)
    ensures Laid(CodeE(ar, sc, e), LayE(sc, e, 0), |sc.names|, |ScopeE(sc, e).names| + 1)
  {
    hide FlowsAt, CodeE, ScopeE, LayE, FitsE;
    FlowsE(ar, sc, e, 0, false);
  }

  lemma {:induction false} LaidSimple(ar: Arith, sc: Scope, e: Expr, it: Item)
    requires FitsE(sc, e, false)
    ensures var n := |ScopeE(sc, e).names|;
            Laid(CodeE(ar, sc, e) + [it], LayE(sc, e, 0) + [Spot(n, 1)], |sc.names|, n)
  {
    hide CodeE, ScopeE, LayE, FitsE;
    var n := |ScopeE(sc, e).names|;
    LaidE(ar, sc, e);
    LaidTwo(CodeE(ar, sc, e), LayE(sc, e, 0), [it], [Spot(n, 1)], |sc.names|, n + 1, n);
  }

  lemma {:induction false} LaidS(ar: Arith, sc: Scope, s: Stmt)
    requires ExprsFit(sc, s)
    ensures Laid(CodeS(ar, sc, s), LayS(sc, s), |sc.names|, |ScopeS(sc, s).names|)
    decreases s, 1
  {
    hide CodeE, ScopeE, LayE, FitsE, Laid, IfCode, WhileCode, Pops, LayPops;
    match s
    case Block(body) =>
      var after := ScopeBody(sc, body);
      var d := |after.names| - |sc.names|;
      LaidBody(ar, sc, body);
      LaidPops(d, |after.names|);
      LaidTwo(CodeBody(ar, sc, body), LayBody(sc, body), Pops(d), LayPops(d, |after.names|), |sc.names|,
          |after.names|, |sc.names|);
    case Return(e) => LaidSimple(ar, sc, e, Plain(ReturnOp));
    case While(cond, body) =>
      LaidE(ar, sc, cond);
      LaidS(ar, ScopeE(sc, cond), body);
      LaidLoop(CodeE(ar, sc, cond), LayE(sc, cond, 0), CodeS(ar, ScopeE(sc, cond), body),
          LayS(ScopeE(sc, cond), body), |sc.names|, |ScopeE(sc, cond).names|, |ScopeS(sc, s).names|);
    case If(cond, a, b) => LaidIf(ar, sc, cond, a, b);
    case Break => LaidHole(BreakHole, |sc.names|);
    case Continue => LaidHole(ContinueHole, |sc.names|);
    case ExprStmt(e) => LaidSimple(ar, sc, e, Plain(Pop));
  }

  lemma LaidHole(it: Item, n: nat)
    ensures Laid([it], [Spot(n, 0)], n, n)
  {
  }

  lemma LaidPops(d: nat, top: nat)
    requires d <= top
    ensures Laid(Pops(d), LayPops(d, top), top, top - d)
  {
  }

  lemma LaidLoop(cc: seq<Item>, lc: seq<Spot>, cb: seq<Item>, lb: seq<Spot>, n: nat, n1: nat, n2: nat)
    requires Laid(cc, lc, n, n1 + 1) && Laid(cb, lb, n1, n2)
    ensures Laid(WhileCode(cc, cb), lc + [Spot(n1, 1)] + lb + [Spot(n2, 0)], n, n2)
  {
    hide Size, Short16, Resolve;
  }

  lemma {:induction false} LaidIf(ar: Arith, sc: Scope, cond: Expr, a: Stmt, b: Option<Stmt>)
    requires ExprsFit(sc, If(cond, a, b))
    ensures Laid(CodeS(ar, sc, If(cond, a, b)), LayS(sc, If(cond, a, b)), |sc.names|,
        |ScopeS(sc, If(cond, a, b)).names|)
    decreases If(cond, a, b), 0
  {
    hide CodeE, ScopeE, LayE, FitsE, Size, Short16;
    var sc1 := ScopeE(sc, cond);
    LaidE(ar, sc, cond);
    LaidS(ar, sc1, a);
    if b.Some? {
      LaidS(ar, ScopeS(sc1, a), b.value);
    }
  }

  lemma {:induction false} LaidBody(ar: Arith, sc: Scope, body: seq<Stmt>)
    requires ExprsFitBody(sc, body)
    ensures Laid(CodeBody(ar, sc, body), LayBody(sc, body), |sc.names|, |ScopeBody(sc, body).names|)
    decreases body, 0
  {
    hide CodeS, ScopeS, LayS, ExprsFit;
    if body != [] {
      var sc1 := ScopeS(sc, body[0]);
      LaidS(ar, sc, body[0]);
      LaidBody(ar, sc1, body[1..]);
      LaidTwo(CodeS(ar, sc, body[0]), LayS(sc, body[0]), CodeBody(ar, sc1, body[1..]), LayBody(sc1, body[1..]),
          |sc.names|, |sc1.names|, |ScopeBody(sc, body).names|);
    }
  }

  // ----- the edges of conditionals and loops -----

  // The jump at item k arrives at item j alone.
  lemma {:induction false} ArrivesOnly(code: seq<Item>, lay: seq<Spot>, out: nat, k: nat, j: nat)
    requires k < |code| == |lay| && Lands(code, k, j, false) && FlowsAt(code, lay, out, k)
    ensures HeightAt(lay, out, j) == lay[k].Height() + EffectOf(code[k]).change
  {
    hide Lands, EffectOf;
    assert JumpAt(code, k) by {
      LandsIsJump(code, k, j);
    }
    LandsInside(code, k, j);
    var j1: nat :| Arrives(code, lay, out, k, j1);
    LandsOnce(code, k, j1, j);
  }

  lemma LandsIsJump(code: seq<Item>, k: nat, j: nat)
    requires Lands(code, k, j, false)
    ensures JumpAt(code, k)
  {
  }

  function LayIf(lc: seq<Spot>, la: seq<Spot>, lb: seq<Spot>, n: nat, na: nat): seq<Spot> {
    lc + [Spot(n, 1)] + la + [Spot(na, 0)] + lb
  }

  lemma {:induction false} IfLands(cc: seq<Item>, a: seq<Item>, b: seq<Item>, all: seq<Item>)
    requires all == IfCode(cc, a, b) && Size(all) < 0x1_0000
    ensures |all| == |cc| + |a| + |b| + 2 && all[|cc|].Plain? && all[|cc|].i.PopJumpIfFalse?
        && all[|cc| + 1 + |a|].Plain? && all[|cc| + 1 + |a|].i.Jump?
    ensures Lands(all, |cc|, |cc| + |a| + 2, false) && Lands(all, |cc| + 1 + |a|, |all|, false)
  {
    hide Size, Short16, Lands;
    var i, j := PopJumpIfFalse(Short16(Size(a) + 3)), Jump(Short16(Size(b)));
    IfSizes(cc, [Plain(i)], a, [Plain(j)], b, all);
    OffsetFits(Size(a) + 3);
    OffsetFits(Size(b));
    var over, tail := a + [Plain(j)], [Plain(j)] + (b + []);
    ForwardLands(i, over, b, [Plain(i)] + (over + b));
    LandsRight(cc, [Plain(i)] + (over + b), 0, 1 + |over|, false);
    assert cc + ([Plain(i)] + (over + b)) == all;
    ForwardLands(j, b, [], tail);
    LandsRight(cc + [Plain(i)] + a, tail, 0, 1 + |b|, false);
    assert b + [] == b && cc + [Plain(i)] + a + tail == all;
  }

  lemma {:induction false} IfAgree(cc: seq<Item>, lc: seq<Spot>, a: seq<Item>, la: seq<Spot>, b: seq<Item>,
      lb: seq<Spot>, n: nat, na: nat, nb: nat)
    requires |cc| == |lc| && |a| == |la| && Laid(b, lb, na, nb) && Size(IfCode(cc, a, b)) < 0x1_0000
    requires Flows(IfCode(cc, a, b), LayIf(lc, la, lb, n, na), nb)
    ensures na == n && nb == n
  {
    hide Size, Lands, FlowsAt, IfCode;
    var all, lay := IfCode(cc, a, b), LayIf(lc, la, lb, n, na);
    IfLands(cc, a, b, all);
    assert FlowsAt(all, lay, nb, |cc|) && FlowsAt(all, lay, nb, |cc| + 1 + |a|);
    ArrivesOnly(all, lay, nb, |cc|, |cc| + |a| + 2);
    ArrivesOnly(all, lay, nb, |cc| + 1 + |a|, |all|);
    assert lay[|cc|] == Spot(n, 1) && lay[|cc| + 1 + |a|] == Spot(na, 0);
    assert HeightAt(lay, nb, |cc| + |a| + 2) == HeightAt(lb, nb, 0);
  }

  /** A conditional whose parts keep their layouts keeps its own exactly if neither arm declares a local: n locals are
      there after the condition, na after the first arm and nb after the second. */
  lemma {:induction false} IfFlows(cc: seq<Item>, lc: seq<Spot>, a: seq<Item>, la: seq<Spot>, b: seq<Item>,
      lb: seq<Spot>, start: nat, n: nat, na: nat, nb: nat)
    requires Flows(cc, lc, n + 1) && HeightAt(lc, n + 1, 0) == start && Flows(a, la, na) && HeightAt(la, na, 0) == n
        && Flows(b, lb, nb) && HeightAt(lb, nb, 0) == na && Size(IfCode(cc, a, b)) < 0x1_0000
    ensures Flows(IfCode(cc, a, b), LayIf(lc, la, lb, n, na), nb) <==> na == n && nb == n
  {
    hide Size, FlowsAt, IfCode;
    if Flows(IfCode(cc, a, b), LayIf(lc, la, lb, n, na), nb) {
      IfAgree(cc, lc, a, la, b, lb, n, na, nb);
    }
    if na == n && nb == n {
      FlowsIf(cc, lc, a, la, b, lb, n, start);
    }
  }

  function LayWhile(lc: seq<Spot>, lb: seq<Spot>, n1: nat, n2: nat): seq<Spot> {
    lc + [Spot(n1, 1)] + lb + [Spot(n2, 0)]
  }

  lemma {:induction false} LoopAgree(cc: seq<Item>, lc: seq<Spot>, cb: seq<Item>, lb: seq<Spot>, n: nat, n1: nat,
      n2: nat)
    requires Straight(cc) && Laid(cc, lc, n, n1 + 1) && |cb| == |lb| && Size(WhileCode(cc, cb)) < 0x1_0000
    requires Flows(WhileCode(cc, cb), LayWhile(lc, lb, n1, n2), n2)
    ensures n1 == n && n2 == n
  {
    hide Size, Lands, FlowsAt, Straight, Short16, Resolve;
    var all, lay := WhileCode(cc, cb), LayWhile(lc, lb, n1, n2);
    LoopEnds(cc, cb, all);
    assert all[|cc|].Plain? && all[|cc|].i.PopJumpIfFalse? && all[|all| - 1].Plain? && all[|all| - 1].i.Loop?;
    hide WhileCode;
    assert FlowsAt(all, lay, n2, |cc|) && FlowsAt(all, lay, n2, |all| - 1);
    ArrivesOnly(all, lay, n2, |cc|, |all|);
    ArrivesOnly(all, lay, n2, |all| - 1, 0);
    assert lay[|cc|] == Spot(n1, 1) && lay[|all| - 1] == Spot(n2, 0);
  }

  /** A loop whose parts keep their layouts keeps its own exactly if its condition and its body declare no local and
      every break and continue stands where no local has been declared since it began: n locals are there at its
      start, n1 after the condition and n2 after the body. */
  lemma {:induction false} WhileFlows(cc: seq<Item>, lc: seq<Spot>, cb: seq<Item>, lb: seq<Spot>, n: nat, n1: nat,
      n2: nat)
    requires Straight(cc) && Flows(cc, lc, n1 + 1) && HeightAt(lc, n1 + 1, 0) == n && Flows(cb, lb, n2)
        && HeightAt(lb, n2, 0) == n1 && Size(WhileCode(cc, cb)) < 0x1_0000
    ensures Flows(WhileCode(cc, cb), LayWhile(lc, lb, n1, n2), n2) <==> n1 == n && n2 == n && OpenAt(cb, lb, n)
  {
    hide Size, FlowsAt, WhileCode, Straight, OpenAt;
    if Flows(WhileCode(cc, cb), LayWhile(lc, lb, n1, n2), n2) {
      LoopAgree(cc, lc, cb, lb, n, n1, n2);
    }
    if n1 == n && n2 == n {
      LoopFlows(cc, lc, cb, lb, n);
    }
  }

  // The body of a loop that keeps its layout keeps its own.
  lemma {:induction false} BodyFlows(cc: seq<Item>, lc: seq<Spot>, cb: seq<Item>, lb: seq<Spot>, n: nat)
    requires |cc| == |lc| && |cb| == |lb| && WellPlaced(cb, false)
    requires Flows(WhileCode(cc, cb), LayWhile(lc, lb, n, n), n)
    ensures Flows(cb, lb, n)
  {
    hide FlowsAt, WhileCode, WellPlaced;
    forall k: nat | k < |cb| ensures FlowsAt(cb, lb, n, k) {
      if cb[k].BreakHole? || cb[k].ContinueHole? {
        HoleFlows(cb, lb, n, k);
      } else {
        BodyFlowsAt(cc, lc, cb, lb, n, k, WhileCode(cc, cb), LayWhile(lc, lb, n, n));
      }
    }
  }

  lemma HoleFlows(cb: seq<Item>, lb: seq<Spot>, n: nat, k: nat)
    requires k < |cb| == |lb| && (cb[k].BreakHole? || cb[k].ContinueHole?)
    ensures FlowsAt(cb, lb, n, k)
  {
  }

  lemma {:induction false} BodyFlowsAt(cc: seq<Item>, lc: seq<Spot>, cb: seq<Item>, lb: seq<Spot>, n: nat, k: nat,
      all: seq<Item>, lay: seq<Spot>)
    requires |cc| == |lc| && |cb| == |lb| && WellPlaced(cb, false) && k < |cb| && !cb[k].BreakHole?
        && !cb[k].ContinueHole?
    requires all == WhileCode(cc, cb) && lay == LayWhile(lc, lb, n, n) && Flows(all, lay, n)
    ensures FlowsAt(cb, lb, n, k)
  {
    hide Lands, EffectOf, WhileCode;
    InLoop(cc, cb, k, all);
    assert all[|cc| + 1 + k] == cb[k] && lay[|cc| + 1 + k] == lb[k];
    assert forall i: nat | i <= |cb| :: HeightAt(lay, n, |cc| + 1 + i) == HeightAt(lb, n, i);
    assert FlowsAt(all, lay, n, |cc| + 1 + k);
    if JumpAt(cb, k) {
      var j: nat :| Lands(cb, k, j, false);
      LandsInLoop(cc, cb, k, j);
      LandsInside(cb, k, j);
      ArrivesOnly(all, lay, n, |cc| + 1 + k, |cc| + 1 + j);
      assert Arrives(cb, lb, n, k, j);
    }
  }

  // ----- what keeps its layout is settled -----

  lemma SameScope(sc: Scope, sc1: Scope)
    requires sc.names <= sc1.names && sc1.top == sc.top && |sc1.names| == |sc.names|
    ensures sc1 == sc
  {
  }

  lemma {:induction false} KeptIsSettled(ar: Arith, sc: Scope, s: Stmt, loop: Option<nat>)
    requires ExprsFit(sc, s) && Size(CodeS(ar, sc, s)) < 0x1_0000
    requires Keeps(CodeS(ar, sc, s), LayS(sc, s), |sc.names|, |ScopeS(sc, s).names|, loop)
    ensures SettledS(sc, s, loop)
    decreases s, 1
  {
    hide CodeE, ScopeE, LayE, FitsE, Size, Keeps, IfCode, WhileCode, Pops, LayPops;
    match s
    case Block(body) => KeptBlock(ar, sc, body, loop);
    case While(cond, body) => KeptWhile(ar, sc, cond, body, loop);
    case If(cond, a, b) => KeptIf(ar, sc, cond, a, b, loop);
    case Break => KeptHole(BreakHole, |sc.names|, loop);
    case Continue => KeptHole(ContinueHole, |sc.names|, loop);
    case _ =>
  }

  lemma KeptHole(it: Item, n: nat, loop: Option<nat>)
    requires (it.BreakHole? || it.ContinueHole?) && Keeps([it], [Spot(n, 0)], n, n, loop)
    ensures loop == Some(n)
  {
    assert [it][0] == it;
    assert [Spot(n, 0)][0] == Spot(n, 0);
  }

  lemma {:induction false} KeptBlock(ar: Arith, sc: Scope, body: seq<Stmt>, loop: Option<nat>)
    requires ExprsFitBody(sc, body) && Size(CodeS(ar, sc, Block(body))) < 0x1_0000
    requires Keeps(CodeS(ar, sc, Block(body)), LayS(sc, Block(body)), |sc.names|, |sc.names|, loop)
    ensures SettledBody(sc, body, loop)
    decreases Block(body), 0
  {
    hide Size, Keeps, Pops, LayPops, CodeBody, LayBody, ScopeBody, ExprsFitBody, WellPlaced, SettledBody;
    var after := ScopeBody(sc, body);
    var d := |after.names| - |sc.names|;
    SizeAppend(CodeBody(ar, sc, body), Pops(d));
    LaidBody(ar, sc, body);
    LaidPops(d, |after.names|);
    PlacedBody(ar, sc, body, false);
    PlacedPops(d, false);
    KeepsTwo(CodeBody(ar, sc, body), LayBody(sc, body), Pops(d), LayPops(d, |after.names|), |sc.names|,
        |after.names|, |sc.names|, loop);
    KeptBody(ar, sc, body, loop);
  }

  lemma {:induction false} KeptBody(ar: Arith, sc: Scope, body: seq<Stmt>, loop: Option<nat>)
    requires ExprsFitBody(sc, body) && Size(CodeBody(ar, sc, body)) < 0x1_0000
    requires Keeps(CodeBody(ar, sc, body), LayBody(sc, body), |sc.names|, |ScopeBody(sc, body).names|, loop)
    ensures SettledBody(sc, body, loop)
    decreases body, 0
  {
    hide Size, Keeps, CodeS, LayS, ScopeS, ExprsFit, WellPlaced, SettledS;
    if body != [] {
      var sc1 := ScopeS(sc, body[0]);
      var first, rest := CodeS(ar, sc, body[0]), CodeBody(ar, sc1, body[1..]);
      SizeAppend(first, rest);
      LaidS(ar, sc, body[0]);
      LaidBody(ar, sc1, body[1..]);
      PlacedS(ar, sc, body[0], false);
      PlacedBody(ar, sc1, body[1..], false);
      KeepsTwo(first, LayS(sc, body[0]), rest, LayBody(sc1, body[1..]), |sc.names|, |sc1.names|,
          |ScopeBody(sc, body).names|, loop);
      KeptIsSettled(ar, sc, body[0], loop);
      KeptBody(ar, sc1, body[1..], loop);
    }
  }

  lemma {:induction false} KeptWhile(ar: Arith, sc: Scope, cond: Expr, body: Stmt, loop: Option<nat>)
    requires ExprsFit(sc, While(cond, body)) && Size(CodeS(ar, sc, While(cond, body))) < 0x1_0000
    requires Keeps(CodeS(ar, sc, While(cond, body)), LayS(sc, While(cond, body)), |sc.names|,
        |ScopeS(sc, While(cond, body)).names|, loop)
    ensures SettledS(sc, While(cond, body), loop)
    decreases While(cond, body), 0
  {
    hide CodeE, ScopeE, LayE, FitsE, Size, WhileCode, FlowsAt, OpenAt, HoleFree, WellPlaced, Straight;
    var sc1 := ScopeE(sc, cond);
    var sc2, n := ScopeS(sc1, body), |sc.names|;
    var cc, lc, cb, lb := CodeE(ar, sc, cond), LayE(sc, cond, 0), CodeS(ar, sc1, body), LayS(sc1, body);
    assert LayS(sc, While(cond, body)) == LayWhile(lc, lb, |sc1.names|, |sc2.names|);
    WhileParts(cc, cb);
    LaidE(ar, sc, cond);
    FlowsE(ar, sc, cond, 0, false);
    StraightE(ar, sc, cond);
    LaidS(ar, sc1, body);
    PlacedS(ar, sc1, body, false);
    LoopAgree(cc, lc, cb, lb, n, |sc1.names|, |sc2.names|);
    SameScope(sc, sc1);
    SameScope(sc1, sc2);
    BodyFlows(cc, lc, cb, lb, n);
    WhileFlows(cc, lc, cb, lb, n, n, n);
    KeptIsSettled(ar, sc1, body, Some(n));
  }

  lemma {:induction false} KeptIf(ar: Arith, sc: Scope, cond: Expr, a: Stmt, b: Option<Stmt>, loop: Option<nat>)
    requires ExprsFit(sc, If(cond, a, b)) && Size(CodeS(ar, sc, If(cond, a, b))) < 0x1_0000
    requires Keeps(CodeS(ar, sc, If(cond, a, b)), LayS(sc, If(cond, a, b)), |sc.names|,
        |ScopeS(sc, If(cond, a, b)).names|, loop)
    ensures SettledS(sc, If(cond, a, b), loop)
    decreases If(cond, a, b), 0
  {
    hide CodeE, ScopeE, LayE, FitsE, Size, IfCode, FlowsAt, OpenAt, HoleFree, WellPlaced, Straight;
    var sc1 := ScopeE(sc, cond);
    var sc2 := ScopeS(sc1, a);
    var sc3 := if b.Some? then ScopeS(sc2, b.value) else sc2;
    var cc, lc, ca, la := CodeE(ar, sc, cond), LayE(sc, cond, 0), CodeS(ar, sc1, a), LayS(sc1, a);
    var cb, lb := if b.Some? then CodeS(ar, sc2, b.value) else [], if b.Some? then LayS(sc2, b.value) else [];
    assert LayS(sc, If(cond, a, b)) == LayIf(lc, la, lb, |sc1.names|, |sc2.names|);
    IfParts(cc, ca, cb);
    LaidE(ar, sc, cond);
    LaidS(ar, sc1, a);
    PlacedS(ar, sc1, a, false);
    if b.Some? {
      LaidS(ar, sc2, b.value);
      PlacedS(ar, sc2, b.value, false);
    }
    IfAgree(cc, lc, ca, la, cb, lb, |sc1.names|, |sc2.names|, |sc3.names|);
    SameScope(sc1, sc2);
    IfKeeps(cc, lc, ca, la, cb, lb, |sc.names|, |sc1.names|, loop);
    KeptIsSettled(ar, sc1, a, loop);
    if b.Some? {
      SameScope(sc2, sc3);
      KeptIsSettled(ar, sc1, b.value, loop);
    }
  }

  // The arms of a conditional that keeps its layout keep theirs.
  lemma {:induction false} IfKeeps(cc: seq<Item>, lc: seq<Spot>, a: seq<Item>, la: seq<Spot>, b: seq<Item>,
      lb: seq<Spot>, start: nat, n: nat, loop: Option<nat>)
    requires |cc| == |lc| && Laid(a, la, n, n) && Laid(b, lb, n, n)
    requires Keeps(IfCode(cc, a, b), LayIf(lc, la, lb, n, n), start, n, loop)
    ensures WellPlaced(a, false) ==> Keeps(a, la, n, n, loop)
    ensures WellPlaced(b, false) ==> Keeps(b, lb, n, n, loop)
  {
    hide Keeps, WellPlaced, Size, Short16;
    var i, j := [Plain(PopJumpIfFalse(Short16(Size(a) + 3)))], [Plain(Jump(Short16(Size(b))))];
    var s, t := [Spot(n, 1)], [Spot(n, 0)];
    var all, lay := IfCode(cc, a, b), LayIf(lc, la, lb, n, n);
    if WellPlaced(a, false) {
      assert all == cc + i + a + (j + b) && lay == lc + s + la + (t + lb);
      KeepsMiddle(cc + i, lc + s, a, la, j + b, t + lb, all, lay, start, n, n, n, loop);
    }
    if WellPlaced(b, false) {
      assert all == cc + i + a + j + b + [] && lay == lc + s + la + t + lb + [];
      KeepsMiddle(cc + i + a + j, lc + s + la + t, b, lb, [], [], all, lay, start, n, n, n, loop);
    }
  }

  // ----- the conditions are exact -----

  /** Where its expressions are in the domain, the layout of a statement agrees along every edge of its code, with
      every open jump at the height where its loop began, if and only if the statement is settled. */
  lemma {:induction false} LayoutExact(ar: Arith, sc: Scope, s: Stmt, loop: Option<nat>)
    requires ExprsFit(sc, s) && Size(CodeS(ar, sc, s)) < 0x1_0000
    ensures Keeps(CodeS(ar, sc, s), LayS(sc, s), |sc.names|, |ScopeS(sc, s).names|, loop) <==> SettledS(sc, s, loop)
  {
    hide CodeS, LayS, ScopeS, ExprsFit, SettledS, Keeps, FitsS;
    FitsIsBoth(sc, s, loop);
    if SettledS(sc, s, loop) {
      KeepsS(ar, sc, s, loop);
    }
    if Keeps(CodeS(ar, sc, s), LayS(sc, s), |sc.names|, |ScopeS(sc, s).names|, loop) {
      KeptIsSettled(ar, sc, s, loop);
    }
  }

  /** So for a function: its parameters are there at its start, and the layout agrees up to its final return. */
  lemma {:induction false} FunctionLayoutExact(ar: Arith, f: Function)
    requires ExprsFit(Scope(false, f.params), f.code) && Size(FunctionCode(ar, f)) < 0x1_0000
    ensures var sc := Scope(false, f.params);
            Keeps(FunctionCode(ar, f), FunctionLayout(f), |f.params|, |ScopeS(sc, f.code).names|, None) <==>
            SettledS(sc, f.code, None)
  {
    hide CodeS, LayS, ScopeS, ExprsFit, SettledS, Keeps, FitsS, Size, WellPlaced, LayEnding;
    var sc := Scope(false, f.params);
    var code, lay, n := CodeS(ar, sc, f.code), LayS(sc, f.code), |ScopeS(sc, f.code).names|;
    SizeAppend(code, ENDING);
    LayoutExact(ar, sc, f.code, None);
    KeepsEnding(n);
    if SettledS(sc, f.code, None) {
      KeepsAppend(code, lay, |f.params|, n, ENDING, LayEnding(n), n, None);
    }
    if Keeps(FunctionCode(ar, f), FunctionLayout(f), |f.params|, n, None) {
      LaidS(ar, sc, f.code);
      PlacedS(ar, sc, f.code, false);
      PlacedEnding(false);
      EndingStarts(n);
      KeepsTwo(code, lay, ENDING, LayEnding(n), |f.params|, n, n, None);
    }
  }

  lemma EndingStarts(n: nat)
    ensures |ENDING| == |LayEnding(n)| && HeightAt(LayEnding(n), n, 0) == n
  {
  }
}

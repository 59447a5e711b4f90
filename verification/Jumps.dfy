/**
 Every jump of compiled code is well placed: it lands on an instruction of the same listing or at its end,
 and no open jump is left. A tame listing has, besides, no Dup between a jump and its target, which is what
 module Peephole needs.
 */
module Jumps {
  import opened Syntax
  import opened Arithmetic
  import opened Values
  import opened Bytecode
  import opened Assembly
  import opened Codegen
  import opened Operands
  import opened Compiler

  predicate NoDup(items: seq<Item>) {
    Plain(Dup) !in items
  }

  // The jump at item k lands on item j.
  predicate Lands(items: seq<Item>, k: nat, j: nat, tame: bool) {
    && k < |items| && j <= |items| && items[k].Plain? && IsJump(items[k].i) && !items[k].i.JumpIfFalse?
    && if items[k].i.Loop? then
         && j <= k && Offset(items, j) == Offset(items, k + 1) - items[k].i.offset
         && (tame ==> NoDup(items[j..k + 1]) && items[j] != Plain(Pop))
       else
         && k < j && Offset(items, j) == Offset(items, k + 1) + items[k].i.offset
         && (tame ==> NoDup(items[k + 1..j]))
  }

  predicate JumpAt(items: seq<Item>, k: nat) {
    k < |items| && items[k].Plain? && IsJump(items[k].i)
  }

  ghost predicate WellPlaced(items: seq<Item>, tame: bool) {
    forall k: nat | JumpAt(items, k) :: exists j: nat :: Lands(items, k, j, tame)
  }

  // ----- listings side by side -----

  lemma OffsetLeft(a: seq<Item>, b: seq<Item>, k: nat)
    requires k <= |a|
    ensures Offset(a + b, k) == Offset(a, k)
  {
    assert (a + b)[..k] == a[..k];
  }

  lemma OffsetRight(a: seq<Item>, b: seq<Item>, k: nat)
    requires k <= |b|
    ensures Offset(a + b, |a| + k) == Size(a) + Offset(b, k)
  {
    assert (a + b)[..|a| + k] == a + b[..k];
    SizeAppend(a, b[..k]);
  }

  lemma OffsetNext(items: seq<Item>, k: nat)
    requires k < |items|
    ensures Offset(items, k + 1) == Offset(items, k) + ItemWidth(items[k])
  {
    assert items[..k + 1] == items[..k] + [items[k]] && [items[k]][1..] == [];
    SizeAppend(items[..k], [items[k]]);
  }

  lemma LandsLeft(a: seq<Item>, b: seq<Item>, k: nat, j: nat, tame: bool)
    requires Lands(a, k, j, tame)
    ensures Lands(a + b, k, j, tame)
  {
    hide Offset;
    OffsetLeft(a, b, j);
    OffsetLeft(a, b, k + 1);
    assert j <= k ==> (a + b)[j..k + 1] == a[j..k + 1];
    assert k < j ==> (a + b)[k + 1..j] == a[k + 1..j];
  }

  lemma LandsRight(a: seq<Item>, b: seq<Item>, k: nat, j: nat, tame: bool)
    requires Lands(b, k, j, tame)
    ensures Lands(a + b, |a| + k, |a| + j, tame)
  {
    hide Offset;
    OffsetRight(a, b, j);
    OffsetRight(a, b, k + 1);
    assert j <= k ==> (a + b)[|a| + j..|a| + k + 1] == b[j..k + 1];
    assert k < j ==> (a + b)[|a| + k + 1..|a| + j] == b[k + 1..j];
  }

  lemma PlacedAppend(a: seq<Item>, b: seq<Item>, tame: bool)
    requires WellPlaced(a, tame) && WellPlaced(b, tame)
    ensures WellPlaced(a + b, tame)
  {
    hide Lands;
    forall k: nat | JumpAt(a + b, k) ensures exists j: nat :: Lands(a + b, k, j, tame) {
      if k < |a| {
        assert JumpAt(a, k);
        var j: nat :| Lands(a, k, j, tame);
        LandsLeft(a, b, k, j, tame);
      } else {
        assert JumpAt(b, k - |a|);
        var j: nat :| Lands(b, k - |a|, j, tame);
        LandsRight(a, b, k - |a|, j, tame);
      }
    }
  }

  lemma PlacedStraight(a: seq<Item>, tame: bool)
    requires Straight(a)
    ensures WellPlaced(a, tame)
  {
  }

  lemma PlacedPlain(i: Instr, tame: bool)
    requires !IsJump(i)
    ensures WellPlaced([Plain(i)], tame)
  {
  }

  lemma PlacedPops(n: nat, tame: bool)
    ensures WellPlaced(Pops(n), tame)
  {
  }

  // A jump over the code that follows it.
  lemma PlacedForward(i: Instr, skipped: seq<Item>, rest: seq<Item>, tame: bool)
    requires i.PopJumpIfFalse? || i.Jump?
    requires i.offset == Size(skipped) && WellPlaced(skipped + rest, tame) && (tame ==> NoDup(skipped))
    ensures WellPlaced([Plain(i)] + (skipped + rest), tame)
  {
    var jump, code := [Plain(i)], skipped + rest;
    var all := jump + code;
    forall k: nat | JumpAt(all, k) ensures exists j: nat :: Lands(all, k, j, tame) {
      if k == 0 {
        OffsetRight(jump, code, |skipped|);
        OffsetRight(jump, code, 0);
        OffsetLeft(skipped, rest, |skipped|);
        assert skipped[..|skipped|] == skipped && all[1..1 + |skipped|] == skipped;
        assert Lands(all, 0, 1 + |skipped|, tame);
      } else {
        assert JumpAt(code, k - 1);
        var j: nat :| Lands(code, k - 1, j, tame);
        LandsRight(jump, code, k - 1, j, tame);
      }
    }
  }

  // ----- loops -----

  lemma {:induction false} ResolveAt(items: seq<Item>, back: int, ahead: int, k: nat)
    requires k <= |items|
    ensures Offset(Resolve(items, back, ahead), k) == Offset(items, k)
    ensures k < |items| ==> Resolve(items, back, ahead)[k] == ResolveItem(items[k], back + Offset(items, k),
        ahead - Offset(items, k))
    decreases |items|
  {
    var r := Resolve(items, back, ahead);
    if k == 0 {
      assert items[..0] == [] && r[..0] == [];
    } else {
      hide ResolveItem;
      var w := ItemWidth(items[0]);
      ResolveAt(items[1..], back + w, ahead - w, k - 1);
      assert r[1..] == Resolve(items[1..], back + w, ahead - w);
      FirstOffset(items, k);
      FirstOffset(r, k);
      ResolveWidth(items[0], back, ahead);
    }
  }

  lemma ResolveWidth(it: Item, back: int, ahead: int)
    ensures ItemWidth(ResolveItem(it, back, ahead)) == ItemWidth(it)
  {
  }

  lemma FirstOffset(items: seq<Item>, k: nat)
    requires 0 < k <= |items|
    ensures Offset(items, k) == ItemWidth(items[0]) + Offset(items[1..], k - 1)
  {
    assert items[..k][1..] == items[1..][..k - 1];
  }

  lemma ResolveDups(items: seq<Item>, back: int, ahead: int)
    ensures NoDup(Resolve(items, back, ahead)) <==> NoDup(items)
  {
    var r := Resolve(items, back, ahead);
    forall k: nat | k < |items| ensures items[k] == Plain(Dup) <==> r[k] == Plain(Dup) {
      ResolveAt(items, back, ahead, k);
    }
  }

  // A jump of the body of a loop that the body's own code places.
  lemma ResolveLands(cb: seq<Item>, back: int, ahead: int, k: nat, j: nat, tame: bool)
    requires Lands(cb, k, j, tame) && (tame ==> NoDup(cb))
    ensures Lands(Resolve(cb, back, ahead), k, j, tame)
  {
    hide Offset;
    var r := Resolve(cb, back, ahead);
    ResolveAt(cb, back, ahead, k);
    ResolveAt(cb, back, ahead, k + 1);
    ResolveAt(cb, back, ahead, j);
    ResolveDups(cb, back, ahead);
  }

  lemma PlacedWhile(cc: seq<Item>, cb: seq<Item>, tame: bool)
    requires Straight(cc) && WellPlaced(cb, tame) && (tame ==> NoDup(cc) && NoDup(cb))
    requires Size(WhileCode(cc, cb)) < 0x1_0000
    ensures WellPlaced(WhileCode(cc, cb), tame)
  {
    hide Offset, Size, Lands, Short16;
    var all := WhileCode(cc, cb);
    var o, back := Size(cb) + 3, Size(cc) + 3 + Size(cb) + 3;
    var jump, body, loop := [Plain(PopJumpIfFalse(Short16(o)))], Resolve(cb, Size(cc) + 3, o),
        [Plain(Loop(Short16(back)))];
    var head := cc + jump;
    WhileSizes(cc, cb, head, jump, body, loop, all);
    forall k: nat | JumpAt(all, k) ensures exists j: nat :: Lands(all, k, j, tame) {
      if k < |cc| {
        assert false;
      } else if k == |cc| {
        ToEnd(all, k, tame, cc, cb);
      } else if k == |all| - 1 {
        ToStart(all, k, tame, cc, cb);
      } else {
        var i := k - |head|;
        ResolveAt(cb, Size(cc) + 3, o, i);
        assert all[k] == body[i];
        OffsetRight(head, body, i);
        OffsetLeft(head + body, loop, k);
        if cb[i].BreakHole? {
          BreakLands(cc, cb, i, tame);
        } else if cb[i].ContinueHole? {
          ContinueLands(cc, cb, i, tame);
        } else {
          assert JumpAt(cb, i);
          var j: nat :| Lands(cb, i, j, tame);
          ResolveLands(cb, Size(cc) + 3, o, i, j, tame);
          LandsRight(head, body, i, j, tame);
          LandsLeft(head + body, loop, k, |head| + j, tame);
        }
      }
    }
  }

  lemma {:induction false} WhileSizes(cc: seq<Item>, cb: seq<Item>, head: seq<Item>, jump: seq<Item>, body: seq<Item>,
      loop: seq<Item>, all: seq<Item>)
    requires jump == [Plain(PopJumpIfFalse(Short16(Size(cb) + 3)))]
        && loop == [Plain(Loop(Short16(Size(cc) + 3 + Size(cb) + 3)))]
    requires body == Resolve(cb, Size(cc) + 3, Size(cb) + 3) && head == cc + jump && all == WhileCode(cc, cb)
    ensures all == (head + body) + loop && Size(head) == Size(cc) + 3
    ensures Offset(all, |cc|) == Size(cc) && Offset(all, |all| - 1) == Size(cc) + 3 + Size(cb)
    ensures Size(all) == Offset(all, |all| - 1) + 3
  {
    hide Offset, Size, Resolve, Short16;
    JumpItem(jump[0].i);
    JumpItem(loop[0].i);
    ResolveSize(cb, Size(cc) + 3, Size(cb) + 3);
    WhileShape(cc, cb, head, jump, body, loop, all);
    Two(cc, jump, head, 0);
    Two(head + body, loop, all, 0);
    Sizes(cc, jump, body, loop, head, head + body, all);
  }

  lemma WhileShape(cc: seq<Item>, cb: seq<Item>, head: seq<Item>, jump: seq<Item>, body: seq<Item>, loop: seq<Item>,
      all: seq<Item>)
    requires jump == [Plain(PopJumpIfFalse(Short16(Size(cb) + 3)))]
        && loop == [Plain(Loop(Short16(Size(cc) + 3 + Size(cb) + 3)))]
    requires body == Resolve(cb, Size(cc) + 3, Size(cb) + 3) && head == cc + jump && all == WhileCode(cc, cb)
    ensures all == (head + body) + loop
  {
    hide Size, Resolve, Short16;
  }

  lemma {:induction false} Sizes(cc: seq<Item>, jump: seq<Item>, body: seq<Item>, loop: seq<Item>, head: seq<Item>,
      most: seq<Item>, all: seq<Item>)
    requires head == cc + jump && most == head + body && all == most + loop
    ensures |cc| <= |all| && Offset(all, |cc|) == Size(cc)
    ensures |most| <= |all| && Offset(all, |most|) == Size(cc) + Size(jump) + Size(body)
  {
    hide *;
    Two(cc, jump, head, |cc|);
    Two(head, body, most, |cc|);
    Two(most, loop, all, |cc|);
  }

  lemma Two(a: seq<Item>, b: seq<Item>, ab: seq<Item>, k: nat)
    requires ab == a + b && k <= |a|
    ensures |ab| == |a| + |b| && Size(ab) == Size(a) + Size(b)
    ensures Offset(ab, |a|) == Size(a) && Offset(ab, k) == Offset(a, k)
  {
    hide Size;
    SizeAppend(a, b);
    assert ab[..|a|] == a && ab[..k] == a[..k];
  }

  lemma WholeOffset(items: seq<Item>)
    ensures Offset(items, |items|) == Size(items)
  {
    assert items[..|items|] == items;
  }

  // A jump to the end of a loop.
  lemma ToEnd(all: seq<Item>, k: nat, tame: bool, cc: seq<Item>, cb: seq<Item>)
    requires all == WhileCode(cc, cb) && JumpAt(all, k) && k >= |cc| && Size(all) < 0x1_0000
    requires (tame ==> NoDup(cc) && NoDup(cb)) && !all[k].i.Loop? && !all[k].i.JumpIfFalse?
    requires all[k].i.offset == Short16(Size(all) - Offset(all, k) - 3)
    ensures Lands(all, k, |all|, tame)
  {
    hide Offset, Size;
    OffsetNext(all, k);
    OffsetBound(all, k + 1);
    WholeOffset(all);
    if tame {
      WhileDups(cc, cb);
      assert NoDup(all[k + 1..]);
    }
  }

  // A jump to the condition of a loop.
  lemma ToStart(all: seq<Item>, k: nat, tame: bool, cc: seq<Item>, cb: seq<Item>)
    requires all == WhileCode(cc, cb) && JumpAt(all, k) && Straight(cc) && Size(all) < 0x1_0000
    requires (tame ==> NoDup(cc) && NoDup(cb)) && all[k].i.Loop?
    requires all[k].i.offset == Short16(Offset(all, k) + 3)
    ensures Lands(all, k, 0, tame)
  {
    hide Size, Resolve;
    OffsetNext(all, k);
    OffsetBound(all, k + 1);
    assert all[..0] == [] && Offset(all, 0) == 0 by {
      assert Size([]) == 0 by { NoSize(); }
    }
    assert all[0] != Plain(Pop) by {
      if cc != [] {
        assert all[0] == cc[0] && cc[0] in cc;
      }
    }
    if tame {
      WhileDups(cc, cb);
      assert NoDup(all[0..k + 1]);
    }
  }

  // Item i of a body among the items of its loop.
  lemma {:induction false} InLoop(cc: seq<Item>, cb: seq<Item>, i: nat, all: seq<Item>)
    requires i < |cb| && all == WhileCode(cc, cb)
    ensures var k := |cc| + 1 + i;
            && k < |all| - 1 && Offset(all, k) == Size(cc) + 3 + Offset(cb, i)
            && Size(all) == Size(cc) + 3 + Size(cb) + 3
            && all[k] == ResolveItem(cb[i], Size(cc) + 3 + Offset(cb, i), Size(cb) + 3 - Offset(cb, i))
  {
    hide Offset, Size, Short16, ResolveItem;
    var o, back := Size(cb) + 3, Size(cc) + 3 + Size(cb) + 3;
    var jump, loop := [Plain(PopJumpIfFalse(Short16(o)))], [Plain(Loop(Short16(back)))];
    var body, head := Resolve(cb, Size(cc) + 3, o), cc + jump;
    WhileSizes(cc, cb, head, jump, body, loop, all);
    ResolveAt(cb, Size(cc) + 3, o, i);
    OffsetRight(head, body, i);
    OffsetLeft(head + body, loop, |head| + i);
  }

  /** A break of the body of a loop jumps just past the loop instruction. */
  lemma {:induction false} BreakLands(cc: seq<Item>, cb: seq<Item>, i: nat, tame: bool)
    requires i < |cb| && cb[i].BreakHole? && Size(WhileCode(cc, cb)) < 0x1_0000
    requires tame ==> NoDup(cc) && NoDup(cb)
    ensures Lands(WhileCode(cc, cb), |cc| + 1 + i, |WhileCode(cc, cb)|, tame)
  {
    hide Offset, Size, WhileCode, NoDup;
    var all := WhileCode(cc, cb);
    InLoop(cc, cb, i, all);
    ToEnd(all, |cc| + 1 + i, tame, cc, cb);
  }

  /** A continue of the body of a loop jumps to the first instruction of its condition. */
  lemma {:induction false} ContinueLands(cc: seq<Item>, cb: seq<Item>, i: nat, tame: bool)
    requires i < |cb| && cb[i].ContinueHole? && Size(WhileCode(cc, cb)) < 0x1_0000 && Straight(cc)
    requires tame ==> NoDup(cc) && NoDup(cb)
    ensures Lands(WhileCode(cc, cb), |cc| + 1 + i, 0, tame)
  {
    hide Offset, Size, WhileCode, NoDup;
    var all := WhileCode(cc, cb);
    InLoop(cc, cb, i, all);
    ToStart(all, |cc| + 1 + i, tame, cc, cb);
  }

  lemma NoSize()
    ensures Size([]) == 0
  {
  }

  lemma WhileDups(cc: seq<Item>, cb: seq<Item>)
    ensures NoDup(WhileCode(cc, cb)) <==> NoDup(cc) && NoDup(cb)
  {
    ResolveDups(cb, Size(cc) + 3, Size(cb) + 3);
    hide Size, Resolve, Short16;
  }

  // ----- break and continue in the source -----

  // The breaks and continues of a statement that belong to a loop around it, in the order of the source.
  function OpenJumps(s: Stmt): seq<Stmt>
    decreases s, 1
  {
    match s
    case Block(body) => OpenJumpsOf(body)
    case If(_, a, b) => OpenJumps(a) + (if b.Some? then OpenJumps(b.value) else [])
    case Break => [Break]
    case Continue => [Continue]
    case _ => []
  }

  function OpenJumpsOf(body: seq<Stmt>): seq<Stmt>
    decreases body, 0
  {
    if body == [] then [] else OpenJumps(body[0]) + OpenJumpsOf(body[1..])
  }

  // The open jumps of a listing, in order.
  function Holes(items: seq<Item>): seq<Stmt> {
    if items == [] then []
    else
      (match items[0] case BreakHole => [Break] case ContinueHole => [Continue] case _ => []) + Holes(items[1..])
  }

  lemma {:induction false} HolesOfTwo(a: seq<Item>, b: seq<Item>)
    ensures Holes(a + b) == Holes(a) + Holes(b)
  {
    if a == [] {
      assert a + b == b;
    } else {
      HolesOfTwo(a[1..], b);
      assert (a + b)[1..] == a[1..] + b;
    }
  }

  lemma {:induction false} NoHoles(items: seq<Item>)
    requires HoleFree(items)
    ensures Holes(items) == []
  {
    if items != [] {
      assert items[0] in items;
      NoHoles(items[1..]);
    }
  }

  /** The open jumps of the code of a statement are its breaks and continues that no inner loop has. */
  lemma {:induction false} OpenJumpsAreHoles(ar: Arith, sc: Scope, s: Stmt)
    ensures Holes(CodeS(ar, sc, s)) == OpenJumps(s)
    decreases s, 1
  {
    hide CodeE, ScopeE, Size, WhileCode, IfCode, Short16, Pops, Holes, HoleFree;
    match s
    case Block(body) =>
      var pops := Pops(|ScopeBody(sc, body).names| - |sc.names|);
      OpenJumpsOfBody(ar, sc, body);
      HoleFreePops(|ScopeBody(sc, body).names| - |sc.names|);
      NoHoles(pops);
      HolesOfTwo(CodeBody(ar, sc, body), pops);
      assert OpenJumpsOf(body) + [] == OpenJumpsOf(body);
    case While(cond, body) =>
      StraightE(ar, sc, cond);
      StraightHoleFree(CodeE(ar, sc, cond));
      WhileHoleFree(CodeE(ar, sc, cond), CodeS(ar, ScopeE(sc, cond), body));
      NoHoles(CodeS(ar, sc, s));
    case If(cond, a, b) =>
      var cc, sc1 := CodeE(ar, sc, cond), ScopeE(sc, cond);
      var ca := CodeS(ar, sc1, a);
      var cb := if b.Some? then CodeS(ar, ScopeS(sc1, a), b.value) else [];
      StraightE(ar, sc, cond);
      OpenJumpsAreHoles(ar, sc1, a);
      if b.Some? {
        OpenJumpsAreHoles(ar, ScopeS(sc1, a), b.value);
      } else {
        HoleFreePops(0);
        NoHoles([]);
      }
      IfHoles(cc, ca, cb);
    case Return(e) => SimpleHoles(ar, sc, e, ReturnOp);
    case ExprStmt(e) => SimpleHoles(ar, sc, e, Pop);
    case Break => OneHole();
    case Continue => OneHole();
  }

  lemma {:induction false} OpenJumpsOfBody(ar: Arith, sc: Scope, body: seq<Stmt>)
    ensures Holes(CodeBody(ar, sc, body)) == OpenJumpsOf(body)
    decreases body, 0
  {
    hide CodeS, ScopeS, OpenJumps;
    if body != [] {
      OpenJumpsAreHoles(ar, sc, body[0]);
      OpenJumpsOfBody(ar, ScopeS(sc, body[0]), body[1..]);
      HolesOfTwo(CodeS(ar, sc, body[0]), CodeBody(ar, ScopeS(sc, body[0]), body[1..]));
    }
  }

  lemma OneHole()
    ensures Holes([BreakHole]) == [Break] && Holes([ContinueHole]) == [Continue]
  {
    assert [BreakHole][1..] == [] && [ContinueHole][1..] == [];
  }

  lemma {:induction false} SimpleHoles(ar: Arith, sc: Scope, e: Expr, i: Instr)
    ensures Holes(CodeE(ar, sc, e) + [Plain(i)]) == []
  {
    hide CodeE, Holes;
    StraightE(ar, sc, e);
    StraightHoleFree(CodeE(ar, sc, e));
    NoHoles(CodeE(ar, sc, e) + [Plain(i)]);
  }

  lemma {:induction false} IfHoles(cc: seq<Item>, ca: seq<Item>, cb: seq<Item>)
    requires Straight(cc)
    ensures Holes(IfCode(cc, ca, cb)) == Holes(ca) + Holes(cb)
  {
    hide Size, Short16, Holes;
    var i, j := [Plain(PopJumpIfFalse(Short16(Size(ca) + 3)))], [Plain(Jump(Short16(Size(cb))))];
    StraightHoleFree(cc);
    NoHoles(cc + i);
    NoHoles(j);
    HolesOfTwo(cc + i, ca);
    HolesOfTwo(cc + i + ca, j);
    HolesOfTwo(cc + i + ca + j, cb);
    assert [] + Holes(ca) + [] == Holes(ca);
  }

  /** In the code of every loop, each break of its body lands just past the loop instruction and each continue
      on the condition; these are all the open jumps the body has, and the loop leaves none. */
  lemma {:induction false} LoopJumpsLand(ar: Arith, sc: Scope, cond: Expr, body: Stmt, i: nat)
    requires Size(CodeS(ar, sc, While(cond, body))) < 0x1_0000 && i < |CodeS(ar, ScopeE(sc, cond), body)|
    ensures var loop, cc, cb := CodeS(ar, sc, While(cond, body)), CodeE(ar, sc, cond),
        CodeS(ar, ScopeE(sc, cond), body);
            && (cb[i].BreakHole? ==> Lands(loop, |cc| + 1 + i, |loop|, false))
            && (cb[i].ContinueHole? ==> Lands(loop, |cc| + 1 + i, 0, false))
            && Holes(cb) == OpenJumps(body) && HoleFree(loop)
  {
    hide CodeE, ScopeE, Lands, Size, WhileCode, Holes, OpenJumps;
    var cc, cb := CodeE(ar, sc, cond), CodeS(ar, ScopeE(sc, cond), body);
    StraightE(ar, sc, cond);
    StraightHoleFree(cc);
    WhileHoleFree(cc, cb);
    OpenJumpsAreHoles(ar, ScopeE(sc, cond), body);
    if cb[i].BreakHole? {
      BreakLands(cc, cb, i, false);
    } else if cb[i].ContinueHole? {
      ContinueLands(cc, cb, i, false);
    }
  }

  // ----- conditionals -----

  lemma PlacedIf(cc: seq<Item>, a: seq<Item>, b: seq<Item>, tame: bool)
    requires Straight(cc) && WellPlaced(a, tame) && WellPlaced(b, tame) && (tame ==> NoDup(a) && NoDup(b))
    requires Size(IfCode(cc, a, b)) < 0x1_0000
    ensures WellPlaced(IfCode(cc, a, b), tame)
  {
    hide Size, Short16, WellPlaced;
    var i, j := PopJumpIfFalse(Short16(Size(a) + 3)), Jump(Short16(Size(b)));
    var over := a + [Plain(j)];
    IfSizes(cc, [Plain(i)], a, [Plain(j)], b, IfCode(cc, a, b));
    OffsetFits(Size(a) + 3);
    OffsetFits(Size(b));
    assert b + [] == b;
    PlacedForward(j, b, [], tame);
    PlacedAppend(a, [Plain(j)] + b, tame);
    assert over + b == a + ([Plain(j)] + b);
    PlacedForward(i, over, b, tame);
    PlacedStraight(cc, tame);
    PlacedAppend(cc, [Plain(i)] + (over + b), tame);
    assert cc + ([Plain(i)] + (over + b)) == IfCode(cc, a, b);
  }

  lemma OffsetFits(n: nat)
    requires n < 0x1_0000
    ensures Short16(n) == n
  {
  }

  lemma {:induction false} IfSizes(cc: seq<Item>, i: seq<Item>, a: seq<Item>, j: seq<Item>, b: seq<Item>,
      all: seq<Item>)
    requires all == cc + i + a + j + b && i == [Plain(PopJumpIfFalse(Short16(Size(a) + 3)))]
        && j == [Plain(Jump(Short16(Size(b))))]
    ensures Size(a + j) == Size(a) + 3 && Size(all) >= Size(a) + 3 && Size(all) >= Size(b)
  {
    hide Size, Short16;
    JumpItem(i[0].i);
    JumpItem(j[0].i);
    SizeAppend(a, j);
    SizeAppend(cc, i);
    SizeAppend(cc + i, a);
    SizeAppend(cc + i + a, j);
    SizeAppend(cc + i + a + j, b);
  }

  // ----- statements -----

  // No name is assigned for the first time inside a loop or conditional.
  predicate Tame(ar: Arith, sc: Scope, s: Stmt)
    decreases s, 1
  {
    match s
    case Block(body) => TameBody(ar, sc, body)
    case While(_, _) => NoDup(CodeS(ar, sc, s))
    case If(_, _, _) => NoDup(CodeS(ar, sc, s))
    case _ => true
  }

  predicate TameBody(ar: Arith, sc: Scope, body: seq<Stmt>)
    decreases body, 0
  {
    body == [] || (Tame(ar, sc, body[0]) && TameBody(ar, ScopeS(sc, body[0]), body[1..]))
  }

  lemma NoDupAppend(a: seq<Item>, b: seq<Item>)
    ensures NoDup(a + b) <==> NoDup(a) && NoDup(b)
  {
  }

  lemma {:induction false} PlacedS(ar: Arith, sc: Scope, s: Stmt, tame: bool)
    requires Size(CodeS(ar, sc, s)) < 0x1_0000
    requires tame ==> Tame(ar, sc, s) || NoDup(CodeS(ar, sc, s))
    ensures WellPlaced(CodeS(ar, sc, s), tame)
    decreases s, 1
  {
    hide CodeE, ScopeE, Size, WellPlaced, NoDup, IfCode, WhileCode;
    match s
    case Block(body) =>
      var code, pops := CodeBody(ar, sc, body), Pops(|ScopeBody(sc, body).names| - |sc.names|);
      SizeAppend(code, pops);
      NoDupAppend(code, pops);
      PlacedBody(ar, sc, body, tame);
      PlacedPops(|ScopeBody(sc, body).names| - |sc.names|, tame);
      PlacedAppend(code, pops, tame);
    case Return(e) => PlacedSimple(ar, sc, e, ReturnOp, tame);
    case While(cond, body) =>
      var cc, cb := CodeE(ar, sc, cond), CodeS(ar, ScopeE(sc, cond), body);
      StraightE(ar, sc, cond);
      WhileParts(cc, cb);
      PlacedS(ar, ScopeE(sc, cond), body, tame);
      PlacedWhile(cc, cb, tame);
    case If(cond, a, b) =>
      var cc, sc1 := CodeE(ar, sc, cond), ScopeE(sc, cond);
      var ca := CodeS(ar, sc1, a);
      var cb := if b.Some? then CodeS(ar, ScopeS(sc1, a), b.value) else [];
      StraightE(ar, sc, cond);
      IfParts(cc, ca, cb);
      PlacedS(ar, sc1, a, tame);
      if b.Some? {
        PlacedS(ar, ScopeS(sc1, a), b.value, tame);
      } else {
        NothingPlaced(tame);
      }
      PlacedIf(cc, ca, cb, tame);
    case Break => HolePlaced(BreakHole, tame);
    case Continue => HolePlaced(ContinueHole, tame);
    case ExprStmt(e) => PlacedSimple(ar, sc, e, Pop, tame);
  }

  lemma {:induction false} PlacedBody(ar: Arith, sc: Scope, body: seq<Stmt>, tame: bool)
    requires Size(CodeBody(ar, sc, body)) < 0x1_0000
    requires tame ==> TameBody(ar, sc, body) || NoDup(CodeBody(ar, sc, body))
    ensures WellPlaced(CodeBody(ar, sc, body), tame)
    decreases body, 0
  {
    hide CodeS, ScopeS, Size, WellPlaced, NoDup;
    if body == [] {
      NothingPlaced(tame);
    } else {
      var first, rest := CodeS(ar, sc, body[0]), CodeBody(ar, ScopeS(sc, body[0]), body[1..]);
      SizeAppend(first, rest);
      NoDupAppend(first, rest);
      PlacedS(ar, sc, body[0], tame);
      PlacedBody(ar, ScopeS(sc, body[0]), body[1..], tame);
      PlacedAppend(first, rest, tame);
    }
  }

  lemma {:induction false} PlacedSimple(ar: Arith, sc: Scope, e: Expr, i: Instr, tame: bool)
    requires !IsJump(i)
    ensures WellPlaced(CodeE(ar, sc, e) + [Plain(i)], tame)
  {
    hide *;
    StraightE(ar, sc, e);
    PlacedStraight(CodeE(ar, sc, e), tame);
    PlacedPlain(i, tame);
    PlacedAppend(CodeE(ar, sc, e), [Plain(i)], tame);
  }

  lemma NothingPlaced(tame: bool)
    ensures WellPlaced([], tame) && NoDup([])
  {
  }

  lemma HolePlaced(it: Item, tame: bool)
    requires it.BreakHole? || it.ContinueHole?
    ensures WellPlaced([it], tame)
  {
  }

  lemma {:induction false} WhileParts(cc: seq<Item>, cb: seq<Item>)
    ensures Size(WhileCode(cc, cb)) >= Size(cb)
    ensures NoDup(WhileCode(cc, cb)) ==> NoDup(cc) && NoDup(cb)
  {
    hide Size, Short16, Resolve, Offset;
    var jump, loop := [Plain(PopJumpIfFalse(Short16(Size(cb) + 3)))],
        [Plain(Loop(Short16(Size(cc) + 3 + Size(cb) + 3)))];
    var body := Resolve(cb, Size(cc) + 3, Size(cb) + 3);
    WhileSizes(cc, cb, cc + jump, jump, body, loop, WhileCode(cc, cb));
    WhileDups(cc, cb);
  }

  lemma {:induction false} IfParts(cc: seq<Item>, a: seq<Item>, b: seq<Item>)
    ensures Size(IfCode(cc, a, b)) >= Size(a) && Size(IfCode(cc, a, b)) >= Size(b)
    ensures NoDup(IfCode(cc, a, b)) ==> NoDup(a) && NoDup(b)
  {
    hide Size, Short16;
    var i, j := [Plain(PopJumpIfFalse(Short16(Size(a) + 3)))], [Plain(Jump(Short16(Size(b))))];
    IfSizes(cc, i, a, j, b, IfCode(cc, a, b));
  }

  // ----- the top level of a file declares no locals -----

  lemma {:induction false} NoDupTopE(ar: Arith, sc: Scope, e: Expr)
    requires sc.top
    ensures NoDup(CodeE(ar, sc, e))
    decreases e, 1
  {
    hide CodeAll, FoldBinary, FoldUnary, ScopeE, CodeE, NoDup;
    if IsOperation(e) {
      CodeOfParts(ar, sc, e);
      PartsSmaller(e);
      NoDupTopAll(ar, sc, Parts(e), e);
      NoDupLast(e);
      NoDupAppend(CodeAll(ar, sc, Parts(e)), LastCode(e));
    } else if e.Assign? && e.target.Ident? {
      var inner, last := ValueScope(sc, e.target.name, e.value), StoreNameCode(sc, e.target.name, e.op);
      NoDupTopE(ar, inner, e.value);
      NoDupStore(ar, sc, e);
      NoDupAppend(CodeE(ar, inner, e.value), last);
    } else {
      NoDupLeaf(ar, sc, e);
    }
  }

  lemma NoDupLast(e: Expr)
    requires IsOperation(e)
    ensures NoDup(LastCode(e))
  {
  }

  lemma NoDupStore(ar: Arith, sc: Scope, e: Expr)
    requires e.Assign? && e.target.Ident? && sc.top
    ensures CodeE(ar, sc, e) == CodeE(ar, ValueScope(sc, e.target.name, e.value), e.value)
        + StoreNameCode(sc, e.target.name, e.op)
    ensures NoDup(StoreNameCode(sc, e.target.name, e.op))
  {
  }

  lemma NoDupLeaf(ar: Arith, sc: Scope, e: Expr)
    requires !IsOperation(e) && !(e.Assign? && e.target.Ident?)
    ensures NoDup(CodeE(ar, sc, e))
  {
    hide CodeAll, FoldBinary, FoldUnary;
  }

  lemma {:induction false} NoDupTopAll(ar: Arith, sc: Scope, es: seq<Expr>, parent: Expr)
    requires sc.top && forall e | e in es :: e.Str? || e < parent
    ensures NoDup(CodeAll(ar, sc, es))
    decreases parent, 0, |es|
  {
    hide CodeE, ScopeE;
    if es != [] {
      if es[0].Str? {
        NoDupLeaf(ar, sc, es[0]);
      } else {
        NoDupTopE(ar, sc, es[0]);
      }
      NoDupTopAll(ar, ScopeE(sc, es[0]), es[1..], parent);
      NoDupAppend(CodeE(ar, sc, es[0]), CodeAll(ar, ScopeE(sc, es[0]), es[1..]));
    }
  }

  lemma {:induction false} NoDupTopS(ar: Arith, sc: Scope, s: Stmt)
    requires sc.top
    ensures NoDup(CodeS(ar, sc, s))
    decreases s, 1
  {
    hide CodeE, ScopeE, NoDup, IfCode, WhileCode, Pops;
    match s
    case Block(body) =>
      var n := |ScopeBody(sc, body).names| - |sc.names|;
      NoDupTopBody(ar, sc, body);
      NoDupPops(n);
      NoDupAppend(CodeBody(ar, sc, body), Pops(n));
    case Return(e) =>
      NoDupTopE(ar, sc, e);
      NoDupPlain(ReturnOp);
      NoDupAppend(CodeE(ar, sc, e), [Plain(ReturnOp)]);
    case While(cond, body) =>
      NoDupTopE(ar, sc, cond);
      NoDupTopS(ar, ScopeE(sc, cond), body);
      WhileDups(CodeE(ar, sc, cond), CodeS(ar, ScopeE(sc, cond), body));
    case If(cond, a, b) =>
      var sc1 := ScopeE(sc, cond);
      NoDupTopE(ar, sc, cond);
      NoDupTopS(ar, sc1, a);
      if b.Some? {
        NoDupTopS(ar, ScopeS(sc1, a), b.value);
      } else {
        NoDupPops(0);
      }
      IfDups(CodeE(ar, sc, cond), CodeS(ar, sc1, a), if b.Some? then CodeS(ar, ScopeS(sc1, a), b.value) else []);
    case Break => HoleNoDup(BreakHole);
    case Continue => HoleNoDup(ContinueHole);
    case ExprStmt(e) =>
      NoDupTopE(ar, sc, e);
      NoDupPlain(Pop);
      NoDupAppend(CodeE(ar, sc, e), [Plain(Pop)]);
  }

  lemma {:induction false} NoDupTopBody(ar: Arith, sc: Scope, body: seq<Stmt>)
    requires sc.top
    ensures NoDup(CodeBody(ar, sc, body))
    decreases body, 0
  {
    hide CodeS, ScopeS;
    if body != [] {
      NoDupTopS(ar, sc, body[0]);
      NoDupTopBody(ar, ScopeS(sc, body[0]), body[1..]);
      NoDupAppend(CodeS(ar, sc, body[0]), CodeBody(ar, ScopeS(sc, body[0]), body[1..]));
    }
  }

  lemma NoDupPlain(i: Instr)
    requires i != Dup
    ensures NoDup([Plain(i)])
  {
  }

  lemma HoleNoDup(it: Item)
    requires it.BreakHole? || it.ContinueHole?
    ensures NoDup([it])
  {
  }

  lemma NoDupPops(n: nat)
    ensures NoDup(Pops(n)) && NoDup([])
  {
  }

  lemma {:induction false} IfDups(cc: seq<Item>, a: seq<Item>, b: seq<Item>)
    requires NoDup(cc) && NoDup(a) && NoDup(b)
    ensures NoDup(IfCode(cc, a, b))
  {
    hide Short16, Size;
  }

  // ----- whole listings -----

  lemma PlacedEnding(tame: bool)
    ensures WellPlaced(ENDING, tame) && HoleFree(ENDING)
  {
  }

  lemma {:induction false} JumpsLand(ar: Arith, sc: Scope, s: Stmt, tame: bool)
    requires AcceptsS(s, false) && Size(CodeS(ar, sc, s) + ENDING) < 0x1_0000
    requires tame ==> Tame(ar, sc, s) || NoDup(CodeS(ar, sc, s))
    ensures WellPlaced(CodeS(ar, sc, s) + ENDING, tame) && HoleFree(CodeS(ar, sc, s) + ENDING)
  {
    hide *;
    var code := CodeS(ar, sc, s);
    SizeAppend(code, ENDING);
    HoleFreeS(ar, sc, s);
    PlacedS(ar, sc, s, tame);
    PlacedEnding(tame);
    PlacedAppend(code, ENDING, tame);
    HoleFreeAppend(code, ENDING);
  }

  /** In the code of every program and every function the compiler accepts, each jump lands on an
      instruction of that code or at its end, and no placeholder survives. */
  lemma {:induction false} FunctionJumpsLand(ar: Arith, f: Function, tame: bool)
    requires AcceptsS(f.code, false) && Size(FunctionCode(ar, f)) < 0x1_0000
    requires tame ==> Tame(ar, Scope(false, f.params), f.code)
    ensures WellPlaced(FunctionCode(ar, f), tame) && HoleFree(FunctionCode(ar, f))
  {
    hide AcceptsS, CodeS, Tame, Size, WellPlaced, HoleFree;
    JumpsLand(ar, Scope(false, f.params), f.code, tame);
  }

  lemma {:induction false} ProgramJumpsLand(ar: Arith, program: seq<Stmt>, tame: bool)
    requires AcceptsS(Block(program), false) && Size(ProgramCode(ar, program)) < 0x1_0000
    ensures WellPlaced(ProgramCode(ar, program), tame) && HoleFree(ProgramCode(ar, program))
  {
    hide AcceptsS, CodeS, Tame, Size, WellPlaced, HoleFree, NoDup;
    NoDupTopS(ar, Scope(true, []), Block(program));
    JumpsLand(ar, Scope(true, []), Block(program), tame);
  }
}

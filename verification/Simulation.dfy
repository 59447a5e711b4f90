/**
 Compiled code does what the program means: every run of the machine through the code of an expression or
 a statement follows its evaluation, to the same values, globals and heap, the same error, or on without
 end. The proof is by induction on calls, fuel and syntax.
 */
module Simulation {
  import opened Syntax
  import opened Arithmetic
  import opened Values
  import opened Primitives
  import opened Bytecode
  import opened Assembly
  import opened Codegen
  import opened Domain
  import opened Vm
  import opened Semantics
  import opened Scoping
  import opened Machine
  import opened Instructions
  import opened Folding
  import opened Runs
  import opened Operands

  // ----- expressions without operands -----

  lemma Leaf(w: World, x: Activation, k: nat, temps: seq<Value>, st: Store, r: Result<Value>, fuel: nat)
    requires k < |x.items|
    requires Matches(w, x, Conf(w, x, Offset(x.items, k), temps, st), Offset(x.items, k + 1), temps, r)
    requires r != Stopped(OutOfFuel)
    ensures SimAt(w, x, k, temps, st, 1, One(r), k + 1, fuel)
  {
    hide Conf, Offset, SimAt, Matches;
    Start(w, x, k, temps, st, fuel);
    assert temps + [] == temps;
    Finish(w, x, k, temps, st, 0, [], st, k, r, fuel);
  }

  predicate IsLeaf(e: Expr) {
    || e.Ident? || e.Str? || e.Int? || e.Float? || e.Fn?
    || (e.Unary? && FoldsUnary(e.uop, e.operand))
    || (e.Binary? && Folds(e.bop, e.lhs, e.rhs))
  }

  lemma ConstantLeaf(w: World, x: Activation, k: nat, v: Value, temps: seq<Value>, st: Store, fuel: nat)
    requires Wellformed(w, x) && At(x.items, k, PushCode(v))
    ensures SimAt(w, x, k, temps, st, 1, Ok([v], st), k + 1, fuel)
  {
    hide Conf, Offset, SimAt, Step, Wellformed, Image;
    LoadStep(w, x, k, v, temps, st);
    Leaf(w, x, k, temps, st, Ok(v, st), fuel);
  }

  // What a folded operation evaluates to.
  lemma FoldedValue(w: World, top: bool, fuel: nat, depth: nat, e: Expr, sc: Scope, pending: bool, st: Store)
    requires depth <= FRAMES_MAX && Exact(w.ar) && FitsE(sc, e, pending)
    requires (e.Unary? && FoldsUnary(e.uop, e.operand)) || (e.Binary? && Folds(e.bop, e.lhs, e.rhs))
    ensures Eval(w, top, fuel, depth, e, st) ==
            Ok(Num(if e.Unary? then FoldUnary(w.ar, e.operand) else FoldBinary(w.ar, e.bop, e.lhs, e.rhs)), st)
  {
    hide Exact, FoldUnary, FoldBinary, Apply, ApplyUnary;
    if e.Unary? {
      FoldUnaryCorrect(w.ar, st.heap, e.operand);
      LiteralEval(w, top, fuel, depth, e.operand, st);
    } else {
      FoldBinaryCorrect(w.ar, st.heap, e.bop, e.lhs, e.rhs);
      LiteralEval(w, top, fuel, depth, e.lhs, st);
      LiteralEval(w, top, fuel, depth, e.rhs, st);
    }
  }

  lemma LiteralEval(w: World, top: bool, fuel: nat, depth: nat, e: Expr, st: Store)
    requires depth <= FRAMES_MAX && IsLiteral(e)
    ensures Eval(w, top, fuel, depth, e, st) == Ok(LiteralValue(w.ar, e), st)
  {
  }

  lemma SimLeaf(w: World, x: Activation, k: nat, sc: Scope, e: Expr, pending: bool, fuel: nat, temps: seq<Value>,
      st: Store)
    requires Ready(w, x, k, CodeE(w.ar, sc, e), sc, st, pending, temps) && FitsE(sc, e, pending) && IsLeaf(e)
    ensures |CodeE(w.ar, sc, e)| == 1
    ensures SimAt(w, x, k, temps, st, 1, One(Eval(w, sc.top, fuel, |x.saved| + 1, e, st)), k + 1, fuel)
  {
    hide Conf, Offset, SimAt, Step, Wellformed, Image, At, Exact, FoldUnary, FoldBinary, NameCode, ReadName;
    match e
    case Ident(name) =>
      ReadNameStep(w, x, k, sc, name, temps, st);
      ReadNameTotal(sc.top, name, st);
      AtBound(x.items, k, NameCode(sc, name));
      Leaf(w, x, k, temps, st, ReadName(sc.top, name, st), fuel);
    case Str(s) => ConstantLeaf(w, x, k, Text(s), temps, st, fuel);
    case Int(n) => ConstantLeaf(w, x, k, Num(w.ar.ofInt(n)), temps, st, fuel);
    case Float(d) => ConstantLeaf(w, x, k, Num(d), temps, st, fuel);
    case Fn(f) =>
      CloseStep(w, x, k, f, temps, st);
      AtBound(x.items, k, CodeE(w.ar, sc, e));
      Leaf(w, x, k, temps, st, Ok(Closure(f), st), fuel);
    case Unary(_, e1) =>
      FoldedValue(w, sc.top, fuel, |x.saved| + 1, e, sc, pending, st);
      ConstantLeaf(w, x, k, Num(FoldUnary(w.ar, e1)), temps, st, fuel);
    case Binary(op, l, r) =>
      FoldedValue(w, sc.top, fuel, |x.saved| + 1, e, sc, pending, st);
      ConstantLeaf(w, x, k, Num(FoldBinary(w.ar, op, l, r)), temps, st, fuel);
  }

  lemma ReadNameTotal(top: bool, name: Name, st: Store)
    ensures ReadName(top, name, st) != Stopped(OutOfFuel)
  {
  }

  lemma AtBound(p: seq<Item>, k: nat, items: seq<Item>)
    requires At(p, k, items)
    ensures k + |items| <= |p|
  {
  }

  // ----- operands and operations -----

  lemma {:induction false} SimAll(w: World, x: Activation, k: nat, sc: Scope, es: seq<Expr>, parent: Expr,
      pending: bool, fuel: nat, temps: seq<Value>, st: Store) returns (n: nat)
    requires Ready(w, x, k, CodeAll(w.ar, sc, es), sc, st, pending, temps) && FitsAll(sc, es, pending)
    requires forall e | e in es :: e.Str? || e < parent
    ensures SimAt(w, x, k, temps, st, n, EvalAll(w, sc.top, fuel, |x.saved| + 1, es, st), k + |CodeAll(w.ar, sc, es)|,
        fuel)
    decreases FRAMES_MAX - |x.saved|, fuel, parent, 0, |es|
  {
    hide SimAt, Agrees, Sound, Wellformed, At, Eval, CodeE, ScopeE, FitsE;
    if es == [] {
      n := 0;
      AtBound(x.items, k, []);
      Start(w, x, k, temps, st, fuel);
    } else {
      var e, rest, depth := es[0], es[1..], |x.saved| + 1;
      var sc1 := ScopeE(sc, e);
      var ce, cr := CodeE(w.ar, sc, e), CodeAll(w.ar, sc1, rest);
      ReadyPart(w, x, k, ce, cr, sc, st, pending, temps);
      if e.Str? {
        n := 1;
        SimStr(w, x, k, sc, e, fuel, temps, st);
      } else {
        n := SimE(w, x, k, sc, e, pending, fuel, temps, st);
      }
      var r := Eval(w, sc.top, fuel, depth, e, st);
      assert es == [e] + rest;
      EvalMore(w, sc.top, fuel, depth, e, rest, st);
      if r.Stopped? {
        StopAt(w, x, k, temps, st, n, One(r), k + |ce|, k + |ce| + |cr|, fuel);
      } else {
        ScopeOfE(w, fuel, depth, e, sc, pending, st);
        var m := SimAll(w, x, k + |ce|, sc1, rest, parent, true, fuel, temps + [r.value], r.store);
        Seq(w, x, k, temps, st, n, [r.value], r.store, k + |ce|, m, EvalAll(w, sc.top, fuel, depth, rest, r.store),
            k + |ce| + |cr|, fuel);
        n := n + m;
      }
    }
  }

  lemma SimStr(w: World, x: Activation, k: nat, sc: Scope, e: Expr, fuel: nat, temps: seq<Value>, st: Store)
    requires Wellformed(w, x) && |x.saved| < FRAMES_MAX && At(x.items, k, CodeE(w.ar, sc, e)) && e.Str?
    ensures |CodeE(w.ar, sc, e)| == 1
    ensures SimAt(w, x, k, temps, st, 1, One(Eval(w, sc.top, fuel, |x.saved| + 1, e, st)), k + 1, fuel)
  {
    hide SimAt, Wellformed, At;
    ConstantLeaf(w, x, k, Text(e.text), temps, st, fuel);
  }

  lemma {:induction false} SimOperation(w: World, x: Activation, k: nat, sc: Scope, e: Expr, pending: bool, fuel: nat,
      temps: seq<Value>, st: Store)
    returns (n: nat)
    requires Ready(w, x, k, CodeE(w.ar, sc, e), sc, st, pending, temps) && FitsE(sc, e, pending)
    requires IsOperation(e) && !e.Call?
    ensures SimAt(w, x, k, temps, st, n, One(Eval(w, sc.top, fuel, |x.saved| + 1, e, st)), k + |CodeE(w.ar, sc, e)|,
        fuel)
    decreases FRAMES_MAX - |x.saved|, fuel, e, 1
  {
    hide SimAt, Agrees, Sound, Wellformed, At, Eval, EvalAll, CodeE, CodeAll, FitsE, FitsAll, Parts, LastCode,
        IsOperation, Conf, Step, Image, Final;
    var ps, last, depth := Parts(e), LastCode(e), |x.saved| + 1;
    var code := CodeAll(w.ar, sc, ps);
    CodeOfParts(w.ar, sc, e);
    FitsOfParts(sc, e, pending);
    PartsSmaller(e);
    ReadyPart(w, x, k, code, last, sc, st, pending, temps);
    n := SimAll(w, x, k, sc, ps, e, pending, fuel, temps, st);
    var r := EvalAll(w, sc.top, fuel, depth, ps, st);
    EvalOfParts(w, sc.top, fuel, depth, e, st);
    var end := k + |code|;
    if r.Stopped? {
      StopAt(w, x, k, temps, st, n, r, end, end + 1, fuel);
    } else {
      FinalStep(w, x, end, sc, e, pending, r.value, temps, r.store);
      FinalTotal(w, e, r.value, r.store);
      Finish(w, x, k, temps, st, n, r.value, r.store, end, Final(w, e, r.value, r.store), fuel);
      n := n + 1;
    }
  }

  lemma FinalTotal(w: World, e: Expr, vs: seq<Value>, st: Store)
    requires IsOperation(e) && !e.Call? && |vs| == |Parts(e)|
    ensures Final(w, e, vs, st) != Stopped(OutOfFuel)
  {
    hide Apply, ApplyUnary, GetSubscript, SetSubscript, UpdateSubscript, SliceOf, NewArray, NewMap;
  }

  // x = v and x op= v.
  lemma {:induction false} SimAssign(w: World, x: Activation, k: nat, sc: Scope, e: Expr, pending: bool, fuel: nat,
      temps: seq<Value>, st: Store)
    returns (n: nat)
    requires Ready(w, x, k, CodeE(w.ar, sc, e), sc, st, pending, temps) && FitsE(sc, e, pending)
    requires e.Assign? && e.target.Ident?
    ensures SimAt(w, x, k, temps, st, n, One(Eval(w, sc.top, fuel, |x.saved| + 1, e, st)), k + |CodeE(w.ar, sc, e)|,
        fuel)
    decreases FRAMES_MAX - |x.saved|, fuel, e, 1
  {
    hide SimAt, Sound, Wellformed, At, Conf, Step, Image, WriteName, StoreNameCode, Matches;
    var Assign(op, t, v) := e;
    var name, depth := t.name, |x.saved| + 1;
    AssignedCode(w.ar, sc, e, pending);
    var cv, last := CodeE(w.ar, sc, v), StoreNameCode(sc, name, op);
    ReadyPart(w, x, k, cv, last, sc, st, pending, temps);
    n := SimE(w, x, k, sc, v, pending, fuel, temps, st);
    var r := Eval(w, sc.top, fuel, depth, v, st);
    var end := k + |cv|;
    AssignedValue(w, sc, fuel, depth, e, st);
    if r.Stopped? {
      StopAt(w, x, k, temps, st, n, One(r), end, end + |last|, fuel);
      StoreNameLength(sc, name, op);
    } else {
      assert |Names(st.env)| == |st.env|;
      WriteNameStep(w, x, end, sc, name, op, r.value, temps, r.store);
      WriteNameTotal(w, sc.top, name, IndexOf(sc.names, name), op, r.value, r.store);
      Finish(w, x, k, temps, st, n, [r.value], r.store, end,
          WriteName(w, sc.top, name, IndexOf(sc.names, name), op, r.value, r.store), fuel);
      n := n + 1;
    }
  }

  lemma StoreNameLength(sc: Scope, name: Name, op: Option<BinaryOp>)
    ensures |StoreNameCode(sc, name, op)| == 1
  {
  }

  lemma WriteNameTotal(w: World, top: bool, x: Name, at: Option<nat>, op: Option<BinaryOp>, v: Value, st: Store)
    requires at.Some? ==> at.value < |st.env|
    ensures WriteName(w, top, x, at, op, v, st) != Stopped(OutOfFuel)
  {
    hide Math;
  }

  // A function literal compiles to the same code whether or not its own name is in scope.
  lemma AssignedCode(ar: Arith, sc: Scope, e: Expr, pending: bool)
    requires e.Assign? && e.target.Ident? && FitsE(sc, e, pending)
    ensures CodeE(ar, sc, e) == CodeE(ar, sc, e.value) + StoreNameCode(sc, e.target.name, e.op)
    ensures FitsE(sc, e.value, pending)
    ensures e.target.name !in sc.names && !sc.top ==> !pending
  {
    hide StoreNameCode;
    if e.value.Fn? {
      assert forall y | y in sc.names :: y in ValueScope(sc, e.target.name, e.value).names;
    }
  }

  lemma AssignedValue(w: World, sc: Scope, fuel: nat, depth: nat, e: Expr, st: Store)
    requires e.Assign? && e.target.Ident? && depth <= FRAMES_MAX && Agrees(sc, st)
    ensures Lookup(st.env, e.target.name) == IndexOf(sc.names, e.target.name)
    ensures var r := Eval(w, sc.top, fuel, depth, e.value, st);
            Eval(w, sc.top, fuel, depth, e, st) ==
            if r.Stopped? then Stopped(r.why)
            else WriteName(w, sc.top, e.target.name, Lookup(st.env, e.target.name), e.op, r.value, r.store)
  {
    hide WriteName;
  }

  lemma {:induction false} SimE(w: World, x: Activation, k: nat, sc: Scope, e: Expr, pending: bool, fuel: nat,
      temps: seq<Value>, st: Store)
    returns (n: nat)
    requires Ready(w, x, k, CodeE(w.ar, sc, e), sc, st, pending, temps) && FitsE(sc, e, pending)
    ensures SimAt(w, x, k, temps, st, n, One(Eval(w, sc.top, fuel, |x.saved| + 1, e, st)), k + |CodeE(w.ar, sc, e)|,
        fuel)
    decreases FRAMES_MAX - |x.saved|, fuel, e, 2
  {
    hide SimAt, Ready, CodeE, Eval;
    if IsLeaf(e) {
      n := 1;
      SimLeaf(w, x, k, sc, e, pending, fuel, temps, st);
    } else if e.Assign? && e.target.Ident? {
      n := SimAssign(w, x, k, sc, e, pending, fuel, temps, st);
    } else if e.Call? {
      n := SimCall(w, x, k, sc, e, pending, fuel, temps, st);
    } else {
      n := SimOperation(w, x, k, sc, e, pending, fuel, temps, st);
    }
  }

  // ----- statements -----

  // The machine is at a RETURN of the activation, with v on top.
  ghost predicate Returns(w: World, x: Activation, s: State, n: nat, v: Value, st: Store, j: nat, env: seq<Binding>) {
    At(x.items, j, [Plain(ReturnOp)]) && Run(w, s, n) == Running(Conf(w, x, Offset(x.items, j), [v], st.(env := env)))
  }

  // What a run of n steps from s has to show for the execution of a statement with result r.
  ghost predicate Completes(w: World, x: Activation, s: State, n: nat, r: Result<Completion>, ip: nat, start: int,
      exit: int, fuel: nat) {
    match r
    case Ok(Normal, st) => Run(w, s, n) == Running(Conf(w, x, ip, [], st))
    case Ok(Broke, st) => exit >= 0 && Run(w, s, n) == Running(Conf(w, x, exit, [], st))
    case Ok(Continued, st) => start >= 0 && Run(w, s, n) == Running(Conf(w, x, start, [], st))
    case Ok(Returned(v), st) => exists j: nat, env :: Returns(w, x, s, n, v, st, j, env)
    case Stopped(Failure) => Run(w, s, n) == Outcome.Error
    case Stopped(OutOfFuel) => Run(w, s, n).Running? && n >= fuel
    case Stopped(Unclear) => true
  }

  lemma ReturnsLater(w: World, x: Activation, s: State, n: nat, s1: State, m: nat, v: Value, st: Store, j: nat,
      env: seq<Binding>)
    requires Run(w, s, n) == Running(s1) && Returns(w, x, s1, m, v, st, j, env)
    ensures Returns(w, x, s, n + m, v, st, j, env)
  {
    hide Conf, Offset, At;
    RunAdd(w, s, n, m);
  }

  lemma {:induction false} CompletesLater(w: World, x: Activation, s: State, n: nat, s1: State, m: nat,
      r: Result<Completion>, ip: nat, start: int, exit: int, fuel: nat)
    requires Run(w, s, n) == Running(s1) && Completes(w, x, s1, m, r, ip, start, exit, fuel)
    ensures Completes(w, x, s, n + m, r, ip, start, exit, fuel)
  {
    hide Conf, Offset, At, Returns;
    RunAdd(w, s, n, m);
    if r.Ok? && r.value.Returned? {
      var j: nat, env :| Returns(w, x, s1, m, r.value.value, r.store, j, env);
      ReturnsLater(w, x, s, n, s1, m, r.value.value, r.store, j, env);
    }
  }

  lemma CompletesStop(w: World, x: Activation, k: nat, st: Store, n: nat, r: Result<seq<Value>>, k2: nat, ip: nat,
      start: int, exit: int, fuel: nat)
    requires SimAt(w, x, k, [], st, n, r, k2, fuel) && r.Stopped?
    ensures Completes(w, x, Conf(w, x, Offset(x.items, k), [], st), n, Stopped(r.why), ip, start, exit, fuel)
  {
    hide Conf, Offset, Run;
  }

  // The code of a statement as it stands in its loop.
  function Within(loop: Option<nat>, items: seq<Item>, back: int, ahead: int): (r: seq<Item>)
    ensures |r| == |items|
  {
    if loop.Some? then Resolve(items, back, ahead) else items
  }

  lemma WithinSplit(loop: Option<nat>, a: seq<Item>, b: seq<Item>, back: int, ahead: int, back1: int, ahead1: int)
    requires back1 == back + Size(a) && ahead1 == ahead - Size(a)
    ensures Within(loop, a + b, back, ahead) == Within(loop, a, back, ahead) + Within(loop, b, back1, ahead1)
  {
    hide Resolve, Size;
    ResolveAppend(a, b, back, ahead, back1, ahead1);
  }

  lemma WithinFixed(loop: Option<nat>, a: seq<Item>, back: int, ahead: int)
    requires HoleFree(a)
    ensures Within(loop, a, back, ahead) == a
  {
    ResolveHoleFree(a, back, ahead);
  }

  lemma WithinSize(loop: Option<nat>, a: seq<Item>, back: int, ahead: int)
    ensures Size(Within(loop, a, back, ahead)) == Size(a)
  {
    ResolveSize(a, back, ahead);
  }

  // The ends of the loop lie inside the listing, the exit not before the end of the statement.
  ghost predicate LoopFits(x: Activation, k: nat, code: seq<Item>, sc: Scope, loop: Option<nat>, back: int,
      ahead: int) {
    && k <= |x.items|
    && (loop.Some? ==>
          && loop.value <= |sc.names|
          && 0 <= back <= Offset(x.items, k)
          && Size(code) <= ahead && Offset(x.items, k) + ahead <= Size(x.items))
  }

  ghost predicate ReadyS(w: World, x: Activation, k: nat, code: seq<Item>, sc: Scope, st: Store, loop: Option<nat>,
      back: int, ahead: int) {
    && Ready(w, x, k, Within(loop, code, back, ahead), sc, st, false, [])
    && LoopFits(x, k, code, sc, loop, back, ahead)
  }

  // The two parts of a statement's code, in the same loop; the second starts at item k1.
  lemma ReadyParts(w: World, x: Activation, k: nat, k1: nat, a: seq<Item>, b: seq<Item>, sc: Scope, st: Store,
      loop: Option<nat>, back: int, ahead: int, back1: int, ahead1: int)
    requires ReadyS(w, x, k, a + b, sc, st, loop, back, ahead)
    requires k1 == k + |a| && back1 == back + Size(a) && ahead1 == ahead - Size(a)
    ensures ReadyS(w, x, k, a, sc, st, loop, back, ahead)
    ensures At(x.items, k1, Within(loop, b, back1, ahead1)) && k1 + |b| <= |x.items|
    ensures Offset(x.items, k1) == Offset(x.items, k) + Size(a)
    ensures LoopFits(x, k1, b, sc, loop, back1, ahead1)
  {
    hide Sound, Wellformed, Agrees, Within, At, Offset, Size;
    PartsStand(x, k, k1, a, b, loop, back, ahead, back1, ahead1, Within(loop, a + b, back, ahead),
        Within(loop, a, back, ahead), Within(loop, b, back1, ahead1));
    SizeAppend(a, b);
  }

  lemma PartsStand(x: Activation, k: nat, k1: nat, a: seq<Item>, b: seq<Item>, loop: Option<nat>, back: int,
      ahead: int, back1: int, ahead1: int, whole: seq<Item>, first: seq<Item>, rest: seq<Item>)
    requires whole == Within(loop, a + b, back, ahead) && first == Within(loop, a, back, ahead)
        && rest == Within(loop, b, back1, ahead1)
    requires At(x.items, k, whole) && k1 == k + |a| && back1 == back + Size(a) && ahead1 == ahead - Size(a)
    ensures At(x.items, k, first) && At(x.items, k1, rest) && k1 + |b| <= |x.items|
    ensures Offset(x.items, k1) == Offset(x.items, k) + Size(a)
  {
    hide *;
    PartsSizes(a, b, loop, back, ahead, back1, ahead1, whole, first, rest);
    SplitLike(x.items, k, k1, whole, first, rest, a, |b|);
  }

  lemma PartsSizes(a: seq<Item>, b: seq<Item>, loop: Option<nat>, back: int, ahead: int, back1: int, ahead1: int,
                   whole: seq<Item>, first: seq<Item>, rest: seq<Item>)
    requires whole == Within(loop, a + b, back, ahead) && first == Within(loop, a, back, ahead)
        && rest == Within(loop, b, back1, ahead1)
    requires back1 == back + Size(a) && ahead1 == ahead - Size(a)
    ensures whole == first + rest && Size(first) == Size(a) && |first| == |a| && |rest| == |b|
  {
    hide *;
    WithinSplit(loop, a, b, back, ahead, back1, ahead1);
    WithinSize(loop, a, back, ahead);
  }

  // A first part of the same length and size as a.
  lemma SplitLike(p: seq<Item>, k: nat, k1: nat, whole: seq<Item>, a': seq<Item>, b': seq<Item>, a: seq<Item>, n: nat)
    requires At(p, k, whole) && whole == a' + b' && |a'| == |a| && Size(a') == Size(a) && |b'| == n && k1 == k + |a|
    ensures At(p, k, a') && At(p, k1, b') && k1 + n <= |p|
    ensures Offset(p, k1) == Offset(p, k) + Size(a)
  {
    hide *;
    AtSplitAt(p, k, k1, whole, a', b');
  }

  lemma ReadyWhole(w: World, x: Activation, k: nat, code: seq<Item>, sc: Scope, st: Store, loop: Option<nat>,
      back: int, ahead: int)
    requires ReadyS(w, x, k, code, sc, st, loop, back, ahead) && HoleFree(code)
    ensures Ready(w, x, k, code, sc, st, false, [])
  {
    hide Sound, Wellformed, Agrees, At, LoopFits;
    WithinFixed(loop, code, back, ahead);
  }

  // Popping the locals of a block.
  lemma {:induction false} PopLocals(w: World, x: Activation, k: nat, n: nat, st: Store)
    requires Wellformed(w, x) && At(x.items, k, Pops(n)) && n <= |st.env|
    ensures k + n <= |x.items|
    ensures Run(w, Conf(w, x, Offset(x.items, k), [], st), n) ==
            Running(Conf(w, x, Offset(x.items, k + n), [], st.(env := st.env[..|st.env| - n])))
    decreases n
  {
    hide Wellformed, Conf, Step, Offset;
    if n == 0 {
      assert st.env[..|st.env|] == st.env;
    } else {
      assert Pops(n) == [Plain(Pop)] + Pops(n - 1);
      AtSplit(x.items, k, [Plain(Pop)], Pops(n - 1));
      DropStep(w, x, k, st);
      var st1 := st.(env := st.env[..|st.env| - 1]);
      PopLocals(w, x, k + 1, n - 1, st1);
      assert st1.env[..|st1.env| - (n - 1)] == st.env[..|st.env| - n];
    }
  }

  lemma {:induction false} SimS(w: World, x: Activation, k: nat, sc: Scope, s: Stmt, loop: Option<nat>, back: int,
      ahead: int, fuel: nat, st: Store)
    returns (n: nat)
    requires ReadyS(w, x, k, CodeS(w.ar, sc, s), sc, st, loop, back, ahead) && FitsS(sc, s, loop)
    ensures k + |CodeS(w.ar, sc, s)| <= |x.items|
    ensures Completes(w, x, Conf(w, x, Offset(x.items, k), [], st), n, Exec(w, sc.top, fuel, |x.saved| + 1, s, st),
                      Offset(x.items, k + |CodeS(w.ar, sc, s)|), Offset(x.items, k) - back, Offset(x.items, k) + ahead,
                          fuel)
    decreases FRAMES_MAX - |x.saved|, fuel, s, 2
  {
    hide ReadyS, Completes, CodeS, Exec, FitsS;
    match s
    case Block(_) => n := SimBlock(w, x, k, sc, s, loop, back, ahead, fuel, st);
    case Return(_) => n := SimExprStmt(w, x, k, sc, s, loop, back, ahead, fuel, st);
    case While(_, _) => n := SimWhile(w, x, k, sc, s, loop, back, ahead, fuel, st);
    case If(_, _, _) => n := SimIf(w, x, k, sc, s, loop, back, ahead, fuel, st);
    case Break => n := SimJump(w, x, k, sc, s, loop, back, ahead, fuel, st);
    case Continue => n := SimJump(w, x, k, sc, s, loop, back, ahead, fuel, st);
    case ExprStmt(_) => n := SimExprStmt(w, x, k, sc, s, loop, back, ahead, fuel, st);
  }

  lemma SimJump(w: World, x: Activation, k: nat, sc: Scope, s: Stmt, loop: Option<nat>, back: int, ahead: int,
      fuel: nat, st: Store)
    returns (n: nat)
    requires ReadyS(w, x, k, CodeS(w.ar, sc, s), sc, st, loop, back, ahead) && FitsS(sc, s, loop)
        && (s.Break? || s.Continue?)
    ensures k + |CodeS(w.ar, sc, s)| <= |x.items|
    ensures Completes(w, x, Conf(w, x, Offset(x.items, k), [], st), n, Exec(w, sc.top, fuel, |x.saved| + 1, s, st),
                      Offset(x.items, k + |CodeS(w.ar, sc, s)|), Offset(x.items, k) - back, Offset(x.items, k) + ahead,
                          fuel)
  {
    hide Sound, Wellformed, Agrees, At, Offset, Conf, Step, Size;
    var item := if s.Break? then Jump(Short16(ahead - 3)) else Loop(Short16(back + 3));
    var code := CodeS(w.ar, sc, s);
    HoleSize(code[0]);
    assert code == [code[0]];
    assert Within(loop, code, back, ahead) == [Plain(item)];
    AtBound(x.items, k, [Plain(item)]);
    n := 1;
    if s.Break? {
      BreakStep(w, x, k, ahead, st);
    } else {
      ContinueStep(w, x, k, back, st);
    }
    var s0 := Conf(w, x, Offset(x.items, k), [], st);
    RunStep(w, s0, 0, s0);
  }

  lemma HoleSize(it: Item)
    requires it.BreakHole? || it.ContinueHole?
    ensures Size([it]) == 3
  {
    assert [it][1..] == [];
  }

  lemma BreakStep(w: World, x: Activation, k: nat, ahead: int, st: Store)
    requires Wellformed(w, x) && At(x.items, k, [Plain(Jump(Short16(ahead - 3)))]) && k < |x.items|
    requires 3 <= ahead && Offset(x.items, k) + ahead <= Size(x.items)
    ensures Step(w, Conf(w, x, Offset(x.items, k), [], st)) == Running(Conf(w, x, Offset(x.items, k) + ahead, [], st))
  {
    hide Conf, Step, Offset, Size, Wellformed, At;
    SizeBounds(w, x);
    StepPlain(w, x, k, Jump(Short16(ahead - 3)), [], st);
    JumpStep(w, x, k, Short16(ahead - 3), st);
  }

  lemma ContinueStep(w: World, x: Activation, k: nat, back: int, st: Store)
    requires Wellformed(w, x) && At(x.items, k, [Plain(Loop(Short16(back + 3)))]) && k < |x.items|
    requires 0 <= back <= Offset(x.items, k)
    ensures Step(w, Conf(w, x, Offset(x.items, k), [], st)) == Running(Conf(w, x, Offset(x.items, k) - back, [], st))
  {
    hide Conf, Step, Offset, Size, Wellformed, At;
    SizeBounds(w, x);
    StepPlain(w, x, k, Loop(Short16(back + 3)), [], st);
    LoopStep(w, x, k, Short16(back + 3), st);
  }

  lemma SizeBounds(w: World, x: Activation)
    requires Wellformed(w, x)
    ensures Size(x.items) < 0x1_0000
    ensures forall k | 0 <= k <= |x.items| :: Offset(x.items, k) <= Size(x.items)
  {
    hide Offset;
    forall k | 0 <= k <= |x.items| ensures Offset(x.items, k) <= Size(x.items) {
      OffsetBound(x.items, k);
    }
  }

  // The distance between two addresses of a listing fits the operand of a jump.
  lemma DistanceFits(w: World, x: Activation, k: nat, j: nat)
    requires Wellformed(w, x) && k <= |x.items| && j <= |x.items| && Offset(x.items, k) <= Offset(x.items, j)
    ensures Short16(Offset(x.items, j) - Offset(x.items, k)) == Offset(x.items, j) - Offset(x.items, k)
  {
    SizeBounds(w, x);
  }

  lemma {:induction false} SimExprStmt(w: World, x: Activation, k: nat, sc: Scope, s: Stmt, loop: Option<nat>,
      back: int, ahead: int, fuel: nat, st: Store)
    returns (n: nat)
    requires ReadyS(w, x, k, CodeS(w.ar, sc, s), sc, st, loop, back, ahead) && FitsS(sc, s, loop)
        && (s.Return? || s.ExprStmt?)
    ensures k + |CodeS(w.ar, sc, s)| <= |x.items|
    ensures Completes(w, x, Conf(w, x, Offset(x.items, k), [], st), n, Exec(w, sc.top, fuel, |x.saved| + 1, s, st),
                      Offset(x.items, k + |CodeS(w.ar, sc, s)|), Offset(x.items, k) - back, Offset(x.items, k) + ahead,
                          fuel)
    decreases FRAMES_MAX - |x.saved|, fuel, s, 1
  {
    hide Sound, Wellformed, Agrees, At, Offset, Conf, Step, Within, LoopFits, Eval, CodeE, FitsE, SimAt, Run;
    var e := if s.Return? then s.result else s.expr;
    var code, last := CodeE(w.ar, sc, e), [Plain(if s.Return? then ReturnOp else Pop)];
    HoleFreeE(w.ar, sc, e);
    HoleFreeAppend(code, last);
    ReadyWhole(w, x, k, CodeS(w.ar, sc, s), sc, st, loop, back, ahead);
    ReadyPart(w, x, k, code, last, sc, st, false, []);
    n := SimE(w, x, k, sc, e, false, fuel, [], st);
    var r := Eval(w, sc.top, fuel, |x.saved| + 1, e, st);
    var end, s0 := k + |code|, Conf(w, x, Offset(x.items, k), [], st);
    if r.Stopped? {
      CompletesStop(w, x, k, st, n, One(r), end, Offset(x.items, end + 1), Offset(x.items, k) - back,
          Offset(x.items, k) + ahead, fuel);
    } else {
      AfterOne(w, x, k, st, n, r.value, r.store, end, fuel);
      if s.ExprStmt? {
        PopStep(w, x, end, r.value, r.store);
        RunStep(w, s0, n, Conf(w, x, Offset(x.items, end), [r.value], r.store));
        n := n + 1;
      } else {
        assert r.store.(env := r.store.env) == r.store;
        assert Returns(w, x, s0, n, r.value, r.store, end, r.store.env);
      }
    }
  }

  lemma AfterOne(w: World, x: Activation, k: nat, st: Store, n: nat, v: Value, st1: Store, k1: nat, fuel: nat)
    requires SimAt(w, x, k, [], st, n, Ok([v], st1), k1, fuel)
    ensures Run(w, Conf(w, x, Offset(x.items, k), [], st), n) == Running(Conf(w, x, Offset(x.items, k1), [v], st1))
  {
    hide Conf, Offset, Run;
    assert [] + [v] == [v];
  }

  lemma {:induction false} SimBody(w: World, x: Activation, k: nat, sc: Scope, body: seq<Stmt>, loop: Option<nat>,
      back: int, ahead: int, fuel: nat, st: Store)
    returns (n: nat)
    requires ReadyS(w, x, k, CodeBody(w.ar, sc, body), sc, st, loop, back, ahead) && FitsBody(sc, body, loop)
    ensures k + |CodeBody(w.ar, sc, body)| <= |x.items|
    ensures Completes(w, x, Conf(w, x, Offset(x.items, k), [], st), n,
        ExecAll(w, sc.top, fuel, |x.saved| + 1, body, st),
                      Offset(x.items, k + |CodeBody(w.ar, sc, body)|), Offset(x.items, k) - back,
                          Offset(x.items, k) + ahead, fuel)
    decreases FRAMES_MAX - |x.saved|, fuel, body, 0
  {
    hide Sound, Wellformed, Agrees, At, Offset, Conf, Step, Within, Exec, CodeS, FitsS, ScopeS;
    var s0, depth := Conf(w, x, Offset(x.items, k), [], st), |x.saved| + 1;
    if body == [] {
      n := 0;
      AtBound(x.items, k, Within(loop, [], back, ahead));
    } else {
      var s, rest, sc1 := body[0], body[1..], ScopeS(sc, body[0]);
      var a, b := CodeS(w.ar, sc, s), CodeBody(w.ar, sc1, rest);
      var k1, back1, ahead1 := k + |a|, back + Size(a), ahead - Size(a);
      ReadyParts(w, x, k, k1, a, b, sc, st, loop, back, ahead, back1, ahead1);
      n := SimS(w, x, k, sc, s, loop, back, ahead, fuel, st);
      var r := Exec(w, sc.top, fuel, depth, s, st);
      if r.Ok? && r.value.Normal? {
        ScopeOfS(w, fuel, depth, s, sc, loop, st);
        ScopeGrows(sc, sc1, s);
        var m := SimBody(w, x, k1, sc1, rest, loop, back1, ahead1, fuel, r.store);
        CompletesLater(w, x, s0, n, Conf(w, x, Offset(x.items, k1), [], r.store), m,
            ExecAll(w, sc.top, fuel, depth, rest, r.store), Offset(x.items, k1 + |b|), Offset(x.items, k) - back,
            Offset(x.items, k) + ahead, fuel);
        n := n + m;
      }
    }
  }

  lemma ScopeGrows(sc: Scope, sc1: Scope, s: Stmt)
    requires sc1 == ScopeS(sc, s)
    ensures |sc.names| <= |sc1.names| && sc1.top == sc.top
  {
  }

  lemma {:induction false} SimBlock(w: World, x: Activation, k: nat, sc: Scope, s: Stmt, loop: Option<nat>, back: int,
      ahead: int, fuel: nat, st: Store)
    returns (n: nat)
    requires ReadyS(w, x, k, CodeS(w.ar, sc, s), sc, st, loop, back, ahead) && FitsS(sc, s, loop) && s.Block?
    ensures k + |CodeS(w.ar, sc, s)| <= |x.items|
    ensures Completes(w, x, Conf(w, x, Offset(x.items, k), [], st), n, Exec(w, sc.top, fuel, |x.saved| + 1, s, st),
                      Offset(x.items, k + |CodeS(w.ar, sc, s)|), Offset(x.items, k) - back, Offset(x.items, k) + ahead,
                          fuel)
    decreases FRAMES_MAX - |x.saved|, fuel, s, 1
  {
    hide Sound, Wellformed, At, Offset, Conf, Step, Within, ExecAll, CodeBody, FitsBody, ScopeBody, Run;
    var body, s0, depth := s.body, Conf(w, x, Offset(x.items, k), [], st), |x.saved| + 1;
    var sc1, code := ScopeBody(sc, body), CodeBody(w.ar, sc, body);
    var count := |sc1.names| - |sc.names|;
    ReadyParts(w, x, k, k + |code|, code, Pops(count), sc, st, loop, back, ahead, back + Size(code),
        ahead - Size(code));
    n := SimBody(w, x, k, sc, body, loop, back, ahead, fuel, st);
    var r := ExecAll(w, sc.top, fuel, depth, body, st);
    ScopeOfBody(w, fuel, depth, body, sc, loop, st);
    assert |Names(st.env)| == |st.env|;
    if r.Ok? && r.value.Normal? {
      assert |Names(r.store.env)| == |r.store.env|;
      WithinFixed(loop, Pops(count), back + Size(code), ahead - Size(code));
      PopLocals(w, x, k + |code|, count, r.store);
      RunAdd(w, s0, n, count);
      n := n + count;
    } else if r.Ok? && !r.value.Returned? {
      assert |Names(r.store.env)| == |r.store.env|;
      assert r.store.env[..|st.env|] == r.store.env;
    } else if r.Ok? {
      BlockReturns(w, x, s0, n, r.value.value, r.store, |st.env|);
    }
  }

  lemma BlockReturns(w: World, x: Activation, s: State, n: nat, v: Value, st: Store, m: nat)
    requires (exists j: nat, env :: Returns(w, x, s, n, v, st, j, env)) && m <= |st.env|
    ensures exists j: nat, env :: Returns(w, x, s, n, v, st.(env := st.env[..m]), j, env)
  {
    hide Conf, Offset, At, Run;
    var j: nat, env :| Returns(w, x, s, n, v, st, j, env);
    assert st.(env := st.env[..m]).(env := env) == st.(env := env);
    assert Returns(w, x, s, n, v, st.(env := st.env[..m]), j, env);
  }

  // ----- conditionals -----

  // The code of a part stands at item k, its open jumps filled in.
  ghost predicate StandsIn(x: Activation, k: nat, code: seq<Item>, sc: Scope, loop: Option<nat>, back: int,
      ahead: int) {
    At(x.items, k, Within(loop, code, back, ahead)) && LoopFits(x, k, code, sc, loop, back, ahead)
  }

  lemma AfterJump(w: World, x: Activation, k: nat, c: seq<Item>, j: seq<Item>, b: seq<Item>, sc: Scope, st: Store,
      loop: Option<nat>, back: int, ahead: int)
    requires ReadyS(w, x, k, c + j + b, sc, st, loop, back, ahead) && |j| == 1 && Size(j) == 3
    ensures ReadyS(w, x, k, c + j, sc, st, loop, back, ahead)
    ensures StandsIn(x, k + |c| + 1, b, sc, loop, back + (Size(c) + 3), ahead - (Size(c) + 3))
    ensures k + |c| + 1 <= |x.items| && Offset(x.items, k + |c| + 1) == Offset(x.items, k) + (Size(c) + 3)
  {
    hide Sound, Wellformed, Agrees, At, Offset, Within, LoopFits, Ready, ReadyS, Size, Width;
    SizeAppend(c, j);
    ReadyParts(w, x, k, k + |c| + 1, c + j, b, sc, st, loop, back, ahead, back + (Size(c) + 3), ahead - (Size(c) + 3));
  }

  lemma BeforeJump(w: World, x: Activation, k: nat, c: seq<Item>, j: seq<Item>, sc: Scope, st: Store,
      loop: Option<nat>, back: int, ahead: int)
    requires ReadyS(w, x, k, c + j, sc, st, loop, back, ahead) && HoleFree(j)
    ensures ReadyS(w, x, k, c, sc, st, loop, back, ahead)
    ensures At(x.items, k + |c|, j) && k + |c| + |j| <= |x.items|
    ensures Offset(x.items, k + |c|) == Offset(x.items, k) + Size(c)
  {
    hide Sound, Wellformed, Agrees, At, Offset, Within, LoopFits, Ready, ReadyS, Size, HoleFree;
    ReadyParts(w, x, k, k + |c|, c, j, sc, st, loop, back, ahead, back + Size(c), ahead - Size(c));
    WithinFixed(loop, j, back + Size(c), ahead - Size(c));
  }

  // Code before and after a jump instruction, which is item kj; what follows it starts at item k1.
  lemma {:induction false} SplitAtJump(w: World, x: Activation, k: nat, kj: nat, k1: nat, k2: nat, c: seq<Item>,
      j: seq<Item>, b: seq<Item>, sc: Scope, st: Store, loop: Option<nat>, back: int, ahead: int, back1: int,
      ahead1: int)
    requires ReadyS(w, x, k, c + j + b, sc, st, loop, back, ahead) && |j| == 1 && Size(j) == 3 && HoleFree(j)
    requires kj == k + |c| && k1 == kj + 1 && k2 == k1 + |b| && back1 == back + Size(c) + 3
        && ahead1 == ahead - Size(c) - 3
    ensures k2 <= |x.items| && ReadyS(w, x, k, c, sc, st, loop, back, ahead) && At(x.items, kj, j)
        && StandsIn(x, k1, b, sc, loop, back1, ahead1)
    ensures Offset(x.items, kj) == Offset(x.items, k) + Size(c)
    ensures Offset(x.items, k1) == Offset(x.items, k) + Size(c) + 3
    ensures Offset(x.items, k2) == Offset(x.items, k1) + Size(b)
  {
    hide At, Offset, StandsIn, ReadyS, Size, HoleFree;
    AfterJump(w, x, k, c, j, b, sc, st, loop, back, ahead);
    StandsOffset(x, k1, b, sc, loop, back1, ahead1);
    BeforeJump(w, x, k, c, j, sc, st, loop, back, ahead);
  }

  // The items of a conditional: the condition, jump i at ki, the first branch at ka, jump j at kj, the second at kb.
  ghost predicate IfAt(w: World, x: Activation, k: nat, ki: nat, ka: nat, kj: nat, kb: nat, end: nat,
                       cc: seq<Item>, a: seq<Item>, b: seq<Item>, sc: Scope, st: Store, loop: Option<nat>, back: int,
                           ahead: int, m: int, n: int) {
    && k <= ki < ka <= kj < kb <= end <= |x.items|
    && Ready(w, x, k, cc, sc, st, false, [])
    && At(x.items, ki, [Plain(PopJumpIfFalse(Short16(Size(a) + 3)))])
    && At(x.items, kj, [Plain(Jump(Short16(Size(b))))])
    && StandsIn(x, ka, a, sc, loop, back + m, ahead - m)
    && StandsIn(x, kb, b, sc, loop, back + n, ahead - n)
    && Offset(x.items, ka) == Offset(x.items, k) + m
    && Offset(x.items, kb) == Offset(x.items, k) + n == Offset(x.items, ka) + Size(a) + 3
    && Offset(x.items, end) == Offset(x.items, kb) + Size(b)
  }

  lemma IfLayoutOf(w: World, x: Activation, k: nat, ki: nat, ka: nat, kj: nat, kb: nat, end: nat,
                   cc: seq<Item>, i: seq<Item>, a: seq<Item>, j: seq<Item>, b: seq<Item>, sc: Scope, st: Store,
                       loop: Option<nat>, back: int, ahead: int,
                   back1: int, ahead1: int, back2: int, ahead2: int)
    requires ReadyS(w, x, k, cc + i + a + j + b, sc, st, loop, back, ahead)
    requires |i| == |j| == 1 && Size(i) == Size(j) == 3 && HoleFree(i) && HoleFree(j)
    requires ki == k + |cc| && ka == ki + 1 && kj == ka + |a| && kb == kj + 1 && end == kb + |b|
    requires back1 == back + Size(cc) + 3 && back2 == back1 + Size(a) + 3
    requires ahead1 == ahead - Size(cc) - 3 && ahead2 == ahead1 - Size(a) - 3
    ensures end <= |x.items| && ReadyS(w, x, k, cc, sc, st, loop, back, ahead) && At(x.items, ki, i)
        && At(x.items, kj, j)
    ensures StandsIn(x, ka, a, sc, loop, back1, ahead1) && StandsIn(x, kb, b, sc, loop, back2, ahead2)
    ensures Offset(x.items, ka) == Offset(x.items, k) + Size(cc) + 3
    ensures Offset(x.items, kb) == Offset(x.items, ka) + Size(a) + 3
    ensures Offset(x.items, end) == Offset(x.items, kb) + Size(b)
  {
    hide *;
    var c := cc + i + a;
    assert Size(c) == Size(cc) + 3 + Size(a) && |c| == |cc| + 1 + |a| by {
      SizeAppend(cc + i, a);
      SizeAppend(cc, i);
    }
    SplitAtJump(w, x, k, kj, kb, end, c, j, b, sc, st, loop, back, ahead, back2, ahead2);
    SplitAtJump(w, x, k, ki, ka, kj, cc, i, a, sc, st, loop, back, ahead, back1, ahead1);
  }

  lemma {:induction false} IfLayout(w: World, x: Activation, k: nat, ki: nat, ka: nat, kj: nat, kb: nat, end: nat,
                 cc: seq<Item>, a: seq<Item>, b: seq<Item>, sc: Scope, st: Store, loop: Option<nat>, back: int,
                     ahead: int, m: int, n: int)
    requires ReadyS(w, x, k, IfCode(cc, a, b), sc, st, loop, back, ahead) && HoleFree(cc)
    requires ki == k + |cc| && ka == ki + 1 && kj == ka + |a| && kb == kj + 1 && end == kb + |b|
    requires m == Size(cc) + 3 && n == m + Size(a) + 3
    ensures IfAt(w, x, k, ki, ka, kj, kb, end, cc, a, b, sc, st, loop, back, ahead, m, n)
  {
    hide At, Offset, Ready, ReadyS, StandsIn, Short16, Size, HoleFree;
    var i, j := [Plain(PopJumpIfFalse(Short16(Size(a) + 3)))], [Plain(Jump(Short16(Size(b))))];
    JumpItem(i[0].i);
    JumpItem(j[0].i);
    IfLayoutOf(w, x, k, ki, ka, kj, kb, end, cc, i, a, j, b, sc, st, loop, back, ahead, back + m, ahead - m, back + n,
        ahead - n);
    ReadyWhole(w, x, k, cc, sc, st, loop, back, ahead);
  }

  lemma {:induction false} StandsOffset(x: Activation, k: nat, b: seq<Item>, sc: Scope, loop: Option<nat>, back: int,
      ahead: int)
    requires StandsIn(x, k, b, sc, loop, back, ahead)
    ensures k + |b| <= |x.items| && Offset(x.items, k + |b|) == Offset(x.items, k) + Size(b)
  {
    hide At, Offset, Size, Within;
    WithinSize(loop, b, back, ahead);
    OffsetLike(x.items, k, k + |b|, Within(loop, b, back, ahead), b);
  }

  lemma OffsetLike(p: seq<Item>, k: nat, k1: nat, b': seq<Item>, b: seq<Item>)
    requires At(p, k, b') && |b'| == |b| && Size(b') == Size(b) && k1 == k + |b|
    ensures k1 <= |p| && Offset(p, k1) == Offset(p, k) + Size(b)
  {
    hide Offset, Size;
    OffsetAdd(p, k, b');
  }

  lemma {:induction false} SimIf(w: World, x: Activation, k: nat, sc: Scope, s: Stmt, loop: Option<nat>, back: int,
      ahead: int, fuel: nat, st: Store)
    returns (n: nat)
    requires ReadyS(w, x, k, CodeS(w.ar, sc, s), sc, st, loop, back, ahead) && FitsS(sc, s, loop) && s.If?
    ensures k + |CodeS(w.ar, sc, s)| <= |x.items|
    ensures Completes(w, x, Conf(w, x, Offset(x.items, k), [], st), n, Exec(w, sc.top, fuel, |x.saved| + 1, s, st),
                      Offset(x.items, k + |CodeS(w.ar, sc, s)|), Offset(x.items, k) - back, Offset(x.items, k) + ahead,
                          fuel)
    decreases FRAMES_MAX - |x.saved|, fuel, s, 1
  {
    hide Sound, Wellformed, Agrees, At, Offset, Conf, Step, Within, LoopFits, SimAt, Run, Eval, CodeE, FitsE, ScopeE,
        Falsey, Size, StandsIn;
    var If(cond, a, b) := s;
    var sc1, depth := ScopeE(sc, cond), |x.saved| + 1;
    var cc, ca := CodeE(w.ar, sc, cond), CodeS(w.ar, sc1, a);
    var cb := if b.Some? then CodeS(w.ar, ScopeS(sc1, a), b.value) else [];
    var ki := k + |cc|;
    var ka := ki + 1;
    var kj := ka + |ca|;
    var kb := kj + 1;
    var last := kb + |cb|;
    var m := Size(cc) + 3;
    var m2 := m + Size(ca) + 3;
    HoleFreeE(w.ar, sc, cond);
    IfLayout(w, x, k, ki, ka, kj, kb, last, cc, ca, cb, sc, st, loop, back, ahead, m, m2);
    var s0, start, exit := Conf(w, x, Offset(x.items, k), [], st), Offset(x.items, k) - back,
        Offset(x.items, k) + ahead;
    n := SimE(w, x, k, sc, cond, false, fuel, [], st);
    var r := Eval(w, sc.top, fuel, depth, cond, st);
    var end := Offset(x.items, last);
    if r.Stopped? {
      CompletesStop(w, x, k, st, n, One(r), ki, end, start, exit, fuel);
    } else {
      var st1 := r.store;
      AfterOne(w, x, k, st, n, r.value, st1, ki, fuel);
      IfBranch(w, x, ki, ka, kb, ca, r.value, st1);
      RunStep(w, s0, n, Conf(w, x, Offset(x.items, ki), [r.value], st1));
      n := n + 1;
      ScopeOfE(w, fuel, depth, cond, sc, false, st);
      IfScopes(sc, sc1, cond);
      if !Falsey(w.ar, st1.heap, r.value) {
        var steps := SimThen(w, x, ka, kj, kb, last, ca, cb, sc, sc1, a, loop, back + m, ahead - m, fuel, st1);
        CompletesLater(w, x, s0, n, Conf(w, x, Offset(x.items, ka), [], st1), steps,
            Exec(w, sc.top, fuel, depth, a, st1), end, start, exit, fuel);
        n := n + steps;
      } else if b.Some? {
        StandsReady(w, x, kb, cb, sc, sc1, st1, loop, back + m2, ahead - m2);
        var steps := SimS(w, x, kb, sc1, b.value, loop, back + m2, ahead - m2, fuel, st1);
        CompletesLater(w, x, s0, n, Conf(w, x, Offset(x.items, kb), [], st1), steps,
            Exec(w, sc.top, fuel, depth, b.value, st1), end, start, exit, fuel);
        n := n + steps;
      }
    }
  }

  lemma IfScopes(sc: Scope, sc1: Scope, cond: Expr)
    requires sc1 == ScopeE(sc, cond)
    ensures sc1.top == sc.top && |sc.names| <= |sc1.names|
  {
  }

  lemma StandsReady(w: World, x: Activation, k: nat, code: seq<Item>, sc: Scope, sc1: Scope, st1: Store,
      loop: Option<nat>, back: int, ahead: int)
    requires Sound(w) && Wellformed(w, x) && |x.saved| < FRAMES_MAX && Agrees(sc1, st1) && |sc.names| <= |sc1.names|
    requires StandsIn(x, k, code, sc, loop, back, ahead)
    ensures ReadyS(w, x, k, code, sc1, st1, loop, back, ahead)
  {
    hide Sound, Wellformed, Agrees, At, Within;
  }

  // The conditional jump at ki goes to the start of one of the branches.
  lemma IfBranch(w: World, x: Activation, ki: nat, ka: nat, kb: nat, ca: seq<Item>, v: Value, st: Store)
    requires Wellformed(w, x) && At(x.items, ki, [Plain(PopJumpIfFalse(Short16(Size(ca) + 3)))])
    requires ka == ki + 1 && ka <= kb <= |x.items| && Offset(x.items, kb) == Offset(x.items, ka) + Size(ca) + 3
    ensures Step(w, Conf(w, x, Offset(x.items, ki), [v], st)) ==
            Running(Conf(w, x, Offset(x.items, if Falsey(w.ar, st.heap, v) then kb else ka), [], st))
  {
    hide Offset, Conf, Step, Falsey, At, Wellformed, Size, Short16;
    DistanceFits(w, x, ka, kb);
    BranchStep(w, x, ki, Short16(Size(ca) + 3), v, st);
  }

  // The first branch and the jump at kj over the second, to the end of the conditional.
  lemma {:induction false} SimThen(w: World, x: Activation, ka: nat, kj: nat, kb: nat, end: nat, ca: seq<Item>,
      cb: seq<Item>, sc: Scope, sc1: Scope,
                                   a: Stmt, loop: Option<nat>, back: int, ahead: int, fuel: nat, st: Store)
                                       returns (n: nat)
    requires Sound(w) && Wellformed(w, x) && |x.saved| < FRAMES_MAX && Agrees(sc1, st) && |sc.names| <= |sc1.names|
        && sc1.top == sc.top
    requires ca == CodeS(w.ar, sc1, a) && FitsS(sc1, a, loop)
    requires kj == ka + |ca| && kb == kj + 1 && kb <= end <= |x.items|
        && Offset(x.items, end) == Offset(x.items, kb) + Size(cb)
    requires StandsIn(x, ka, ca, sc, loop, back, ahead) && At(x.items, kj, [Plain(Jump(Short16(Size(cb))))])
    ensures Completes(w, x, Conf(w, x, Offset(x.items, ka), [], st), n, Exec(w, sc.top, fuel, |x.saved| + 1, a, st),
                      Offset(x.items, end), Offset(x.items, ka) - back, Offset(x.items, ka) + ahead, fuel)
    decreases FRAMES_MAX - |x.saved|, fuel, a, 3
  {
    hide Sound, Wellformed, Agrees, At, Offset, Conf, Step, Within, LoopFits, Run, Exec, CodeS, FitsS, Size, StandsIn,
        ReadyS, Short16;
    StandsReady(w, x, ka, ca, sc, sc1, st, loop, back, ahead);
    n := SimS(w, x, ka, sc1, a, loop, back, ahead, fuel, st);
    var r := Exec(w, sc.top, fuel, |x.saved| + 1, a, st);
    if r.Ok? && r.value.Normal? {
      var s0, s1 := Conf(w, x, Offset(x.items, ka), [], st), Conf(w, x, Offset(x.items, kj), [], r.store);
      DistanceFits(w, x, kb, end);
      JumpStep(w, x, kj, Short16(Size(cb)), r.store);
      RunStep(w, s0, n, s1);
      n := n + 1;
    }
  }

  // ----- loops -----

  // The items of a loop: the condition, jump at ki, the body at ka, the jump back at kj.
  ghost predicate WhileAt(w: World, x: Activation, k: nat, ki: nat, ka: nat, kj: nat, end: nat,
                          cc: seq<Item>, cb: seq<Item>, sc: Scope, st: Store, m: int, ahead: int) {
    && k <= ki < ka <= kj < end <= |x.items|
    && Ready(w, x, k, cc, sc, st, false, [])
    && At(x.items, ki, [Plain(PopJumpIfFalse(Short16(ahead)))])
    && At(x.items, kj, [Plain(Loop(Short16(m + ahead)))])
    && StandsIn(x, ka, cb, sc, Some(|sc.names|), m, ahead)
    && Offset(x.items, ka) == Offset(x.items, k) + m
    && Offset(x.items, end) == Offset(x.items, ka) + ahead
  }

  // A jump that ends the code.
  lemma LastJump(w: World, x: Activation, k: nat, kj: nat, end: nat, c: seq<Item>, j: seq<Item>, sc: Scope, st: Store)
    requires ReadyS(w, x, k, c + j, sc, st, None, 0, 0) && |j| == 1 && Size(j) == 3 && HoleFree(j)
    requires kj == k + |c| && end == kj + 1
    ensures end <= |x.items| && ReadyS(w, x, k, c, sc, st, None, 0, 0) && At(x.items, kj, j)
    ensures Offset(x.items, end) == Offset(x.items, kj) + 3
  {
    hide At, Offset, ReadyS, Size, HoleFree;
    BeforeJump(w, x, k, c, j, sc, st, None, 0, 0);
    OffsetAdd(x.items, kj, j);
  }

  lemma LoopLayout(w: World, x: Activation, k: nat, ki: nat, ka: nat, kj: nat, end: nat, cc: seq<Item>, i: seq<Item>,
      body: seq<Item>, j: seq<Item>, sc: Scope, st: Store, m: int, ahead: int)
    requires ReadyS(w, x, k, cc + i + body + j, sc, st, None, 0, 0)
    requires |i| == |j| == 1 && Size(i) == Size(j) == 3 && HoleFree(i) && HoleFree(j)
    requires ki == k + |cc| && ka == ki + 1 && kj == ka + |body| && end == kj + 1
    requires m == Size(cc) + 3 && ahead == Size(body) + 3
    ensures end <= |x.items| && ReadyS(w, x, k, cc, sc, st, None, 0, 0) && At(x.items, ki, i) && At(x.items, kj, j)
    ensures StandsIn(x, ka, body, sc, None, m, -m)
    ensures Offset(x.items, ka) == Offset(x.items, k) + m
    ensures Offset(x.items, end) == Offset(x.items, ka) + ahead
  {
    hide *;
    LastJump(w, x, k, kj, end, cc + i + body, j, sc, st);
    SplitAtJump(w, x, k, ki, ka, kj, cc, i, body, sc, st, None, 0, 0, m, -m);
  }

  lemma {:induction false} WhileCodeIs(cc: seq<Item>, cb: seq<Item>, m: int, ahead: int)
    requires m == Size(cc) + 3 && ahead == Size(cb) + 3
    ensures WhileCode(cc, cb) ==
            cc + [Plain(PopJumpIfFalse(Short16(ahead)))] + Resolve(cb, m, ahead) + [Plain(Loop(Short16(m + ahead)))]
  {
    assert Size(cc) + 3 + Size(cb) + 3 == m + ahead;
  }

  lemma WhileLayout(w: World, x: Activation, k: nat, ki: nat, ka: nat, kj: nat, end: nat,
                    cc: seq<Item>, cb: seq<Item>, sc: Scope, st: Store, m: int, ahead: int)
    requires Ready(w, x, k, WhileCode(cc, cb), sc, st, false, []) && HoleFree(cc)
    requires ki == k + |cc| && ka == ki + 1 && kj == ka + |cb| && end == kj + 1
    requires m == Size(cc) + 3 && ahead == Size(cb) + 3
    ensures WhileAt(w, x, k, ki, ka, kj, end, cc, cb, sc, st, m, ahead)
  {
    hide At, Offset, Ready, ReadyS, StandsIn, Short16, Size, HoleFree, Resolve;
    var i, j := [Plain(PopJumpIfFalse(Short16(ahead)))], [Plain(Loop(Short16(m + ahead)))];
    var body := Resolve(cb, m, ahead);
    WhileCodeIs(cc, cb, m, ahead);
    JumpItem(i[0].i);
    JumpItem(j[0].i);
    ResolveSize(cb, m, ahead);
    AtStart(x, k, WhileCode(cc, cb), w, sc, st);
    LoopLayout(w, x, k, ki, ka, kj, end, cc, i, body, j, sc, st, m, ahead);
    ReadyWhole(w, x, k, cc, sc, st, None, 0, 0);
    OffsetBound(x.items, end);
    LoopBodyStands(x, ka, cb, sc, m, ahead, m, -m);
  }

  lemma AtStart(x: Activation, k: nat, code: seq<Item>, w: World, sc: Scope, st: Store)
    requires Ready(w, x, k, code, sc, st, false, [])
    ensures ReadyS(w, x, k, code, sc, st, None, 0, 0)
  {
    hide Sound, Wellformed, Agrees;
  }

  lemma LoopBodyStands(x: Activation, ka: nat, cb: seq<Item>, sc: Scope, m: int, ahead: int, back1: int, ahead1: int)
    requires StandsIn(x, ka, Resolve(cb, m, ahead), sc, None, back1, ahead1)
    requires 0 <= m <= Offset(x.items, ka) && Size(cb) <= ahead && Offset(x.items, ka) + ahead <= Size(x.items)
    ensures StandsIn(x, ka, cb, sc, Some(|sc.names|), m, ahead)
  {
    hide Offset, Size, Resolve;
  }

  lemma ReadyAgain(w: World, x: Activation, k: nat, code: seq<Item>, sc: Scope, st: Store, st1: Store,
      loop: Option<nat>, back: int, ahead: int)
    requires ReadyS(w, x, k, code, sc, st, loop, back, ahead) && Agrees(sc, st1)
    ensures ReadyS(w, x, k, code, sc, st1, loop, back, ahead)
  {
    hide Sound, Wellformed, Within, At, LoopFits;
  }

  // The conditional jump at ki enters the body or leaves the loop.
  lemma WhileBranch(w: World, x: Activation, ki: nat, ka: nat, end: nat, ahead: int, v: Value, st: Store)
    requires Wellformed(w, x) && At(x.items, ki, [Plain(PopJumpIfFalse(Short16(ahead)))]) && ahead >= 0
    requires ka == ki + 1 && ka <= end <= |x.items| && Offset(x.items, end) == Offset(x.items, ka) + ahead
    ensures Step(w, Conf(w, x, Offset(x.items, ki), [v], st)) ==
            Running(Conf(w, x, Offset(x.items, if Falsey(w.ar, st.heap, v) then end else ka), [], st))
  {
    hide Offset, Conf, Step, Falsey, At, Wellformed, Short16;
    DistanceFits(w, x, ka, end);
    BranchStep(w, x, ki, Short16(ahead), v, st);
  }

  // The jump at kj goes back to the condition.
  lemma WhileBack(w: World, x: Activation, k: nat, kj: nat, end: nat, distance: int, st: Store)
    requires Wellformed(w, x) && At(x.items, kj, [Plain(Loop(Short16(distance)))]) && distance >= 0
    requires end == kj + 1 && k <= end <= |x.items| && Offset(x.items, end) == Offset(x.items, k) + distance
    ensures Step(w, Conf(w, x, Offset(x.items, kj), [], st)) == Running(Conf(w, x, Offset(x.items, k), [], st))
  {
    hide Offset, Conf, Step, At, Wellformed, Short16;
    DistanceFits(w, x, k, end);
    LoopStep(w, x, kj, Short16(distance), st);
  }

  lemma {:induction false} SimWhile(w: World, x: Activation, k: nat, sc: Scope, s: Stmt, loop: Option<nat>, back: int,
      ahead: int, fuel: nat, st: Store)
    returns (n: nat)
    requires ReadyS(w, x, k, CodeS(w.ar, sc, s), sc, st, loop, back, ahead) && FitsS(sc, s, loop) && s.While?
    ensures k + |CodeS(w.ar, sc, s)| <= |x.items|
    ensures Completes(w, x, Conf(w, x, Offset(x.items, k), [], st), n, Exec(w, sc.top, fuel, |x.saved| + 1, s, st),
                      Offset(x.items, k + |CodeS(w.ar, sc, s)|), Offset(x.items, k) - back, Offset(x.items, k) + ahead,
                          fuel)
    decreases FRAMES_MAX - |x.saved|, fuel, s, 1
  {
    hide Sound, Wellformed, Agrees, At, Offset, Conf, Step, Within, LoopFits, SimAt, Run, Eval, CodeE, FitsE, ScopeE,
        Falsey, Size, StandsIn,
         Short16, Resolve, HoleFree;
    var While(cond, body) := s;
    var depth := |x.saved| + 1;
    var cc, cb := CodeE(w.ar, sc, cond), CodeS(w.ar, sc, body);
    var ki := k + |cc|;
    var ka := ki + 1;
    var kj := ka + |cb|;
    var last := kj + 1;
    var m, inner := Size(cc) + 3, Size(cb) + 3;
    HoleFreeE(w.ar, sc, cond);
    WhileHoleFree(cc, cb);
    ReadyWhole(w, x, k, WhileCode(cc, cb), sc, st, loop, back, ahead);
    WhileLayout(w, x, k, ki, ka, kj, last, cc, cb, sc, st, m, inner);
    assert |WhileCode(cc, cb)| == |cc| + 1 + |cb| + 1;
    var s0, start, exit, end := Conf(w, x, Offset(x.items, k), [], st), Offset(x.items, k) - back,
        Offset(x.items, k) + ahead, Offset(x.items, last);
    n := SimE(w, x, k, sc, cond, false, fuel, [], st);
    var r := Eval(w, sc.top, fuel, depth, cond, st);
    if r.Stopped? {
      CompletesStop(w, x, k, st, n, One(r), ki, end, start, exit, fuel);
    } else {
      var st1 := r.store;
      AfterOne(w, x, k, st, n, r.value, st1, ki, fuel);
      WhileBranch(w, x, ki, ka, last, inner, r.value, st1);
      RunStep(w, s0, n, Conf(w, x, Offset(x.items, ki), [r.value], st1));
      n := n + 1;
      ScopeOfE(w, fuel, depth, cond, sc, false, st);
      if !Falsey(w.ar, st1.heap, r.value) {
        n := SimLoop(w, x, k, ka, kj, last, cb, sc, s, loop, back, ahead, m, inner, fuel, s0, n, st, st1);
      }
    }
  }

  // One pass through the body, and the rest of the loop.
  lemma {:induction false} SimLoop(w: World, x: Activation, k: nat, ka: nat, kj: nat, last: nat, cb: seq<Item>,
      sc: Scope, s: Stmt, loop: Option<nat>,
                                   back: int, ahead: int, m: int, inner: int, fuel: nat, s0: State, n0: nat, st: Store,
                                       st1: Store) returns (n: nat)
    requires ReadyS(w, x, k, CodeS(w.ar, sc, s), sc, st, loop, back, ahead) && FitsS(sc, s, loop) && s.While?
    requires cb == CodeS(w.ar, sc, s.loopBody) && StandsIn(x, ka, cb, sc, Some(|sc.names|), m, inner) && Agrees(sc, st1)
    requires kj == ka + |cb| && last == kj + 1 && last <= |x.items| && k <= ka && last == k + |CodeS(w.ar, sc, s)|
        && m >= 0 && inner >= 0
    requires At(x.items, kj, [Plain(Loop(Short16(m + inner)))])
    requires Offset(x.items, ka) == Offset(x.items, k) + m && Offset(x.items, last) == Offset(x.items, ka) + inner
    requires Run(w, s0, n0) == Running(Conf(w, x, Offset(x.items, ka), [], st1)) && n0 > 0
    ensures var depth := |x.saved| + 1;
            var body := Exec(w, sc.top, fuel, depth, s.loopBody, st1);
            Completes(w, x, s0, n,
                      if body.Stopped? then Stopped(body.why)
                      else if body.value.Broke? then Ok(Normal, body.store)
                      else if body.value.Returned? then body
                      else if fuel == 0 then Stopped(OutOfFuel)
                      else Exec(w, sc.top, fuel - 1, depth, s, body.store),
                      Offset(x.items, last), Offset(x.items, k) - back, Offset(x.items, k) + ahead, fuel)
    decreases FRAMES_MAX - |x.saved|, fuel, s, 0
  {
    hide Sound, Wellformed, Agrees, At, Offset, Conf, Step, Within, LoopFits, Run, Exec, CodeS, FitsE, ScopeE, Size,
        StandsIn, Short16, Returns;
    var body, depth := s.loopBody, |x.saved| + 1;
    StandsReady(w, x, ka, cb, sc, sc, st1, Some(|sc.names|), m, inner);
    var steps := SimS(w, x, ka, sc, body, Some(|sc.names|), m, inner, fuel, st1);
    var r := Exec(w, sc.top, fuel, depth, body, st1);
    CompletesLater(w, x, s0, n0, Conf(w, x, Offset(x.items, ka), [], st1), steps, r,
                   Offset(x.items, kj), Offset(x.items, ka) - m, Offset(x.items, ka) + inner, fuel);
    n := n0 + steps;
    if r.Ok? && (r.value.Normal? || r.value.Continued?) {
      var st2 := r.store;
      var s1 := Conf(w, x, Offset(x.items, k), [], st2);
      if r.value.Normal? {
        WhileBack(w, x, k, kj, last, m + inner, st2);
        RunStep(w, s0, n, Conf(w, x, Offset(x.items, kj), [], st2));
        n := n + 1;
      }
      assert Run(w, s0, n) == Running(s1);
      if fuel > 0 {
        ScopeOfS(w, fuel, depth, body, sc, Some(|sc.names|), st1);
        assert sc.(names := sc.names[..|sc.names|]) == sc;
        ReadyAgain(w, x, k, CodeS(w.ar, sc, s), sc, st, st2, loop, back, ahead);
        var rest := SimS(w, x, k, sc, s, loop, back, ahead, fuel - 1, st2);
        FuelLess(w, x, s1, rest, Exec(w, sc.top, fuel - 1, depth, s, st2), Offset(x.items, last),
            Offset(x.items, k) - back, Offset(x.items, k) + ahead, fuel, s0, n);
        n := n + rest;
      }
    }
  }

  lemma FuelLess(w: World, x: Activation, s: State, n: nat, r: Result<Completion>, ip: nat, start: int, exit: int,
      fuel: nat, s0: State, m: nat)
    requires fuel > 0 && m > 0 && Run(w, s0, m) == Running(s) && Completes(w, x, s, n, r, ip, start, exit, fuel - 1)
    ensures Completes(w, x, s0, m + n, r, ip, start, exit, fuel)
  {
    hide Conf, Run, Returns;
    CompletesLater(w, x, s0, m, s, n, r, ip, start, exit, fuel - 1);
  }

  // ----- calls -----

  lemma {:induction false} SimCall(w: World, x: Activation, k: nat, sc: Scope, e: Expr, pending: bool, fuel: nat,
      temps: seq<Value>, st: Store)
    returns (n: nat)
    requires Ready(w, x, k, CodeE(w.ar, sc, e), sc, st, pending, temps) && FitsE(sc, e, pending) && e.Call?
    ensures SimAt(w, x, k, temps, st, n, One(Eval(w, sc.top, fuel, |x.saved| + 1, e, st)), k + |CodeE(w.ar, sc, e)|,
        fuel)
    decreases FRAMES_MAX - |x.saved|, fuel, e, 1
  {
    hide SimAt, Agrees, Sound, Wellformed, At, Eval, EvalAll, CodeE, CodeAll, FitsAll, Parts, Conf, Step, Image,
        CallWith, CallOther, Matches;
    var ps, last, depth := Parts(e), LastCode(e), |x.saved| + 1;
    var code := CodeAll(w.ar, sc, ps);
    CodeOfParts(w.ar, sc, e);
    FitsOfParts(sc, e, pending);
    PartsSmaller(e);
    ReadyPart(w, x, k, code, last, sc, st, pending, temps);
    n := SimAll(w, x, k, sc, ps, e, pending, fuel, temps, st);
    var r := EvalAll(w, sc.top, fuel, depth, ps, st);
    EvalOfCall(w, sc.top, fuel, depth, e, st);
    var end := k + |code|;
    if r.Stopped? {
      StopAt(w, x, k, temps, st, n, r, end, end + 1, fuel);
    } else {
      PartsOfCall(e);
      var c := |e.args|;
      var f, args := r.value[c], r.value[..c];
      assert r.value == args + [f];
      if Enters(w, depth, f, args) {
        var m := SimEnter(w, x, end, e, f.f, args, temps, fuel, r.store);
        JoinCall(w, x, k, temps, st, n, r.value, r.store, end, m, CallWith(w, fuel, depth, f, args, r.store), fuel);
        n := n + m;
      } else {
        CallOtherStep(w, x, end, f, args, temps, r.store);
        CallOtherTotal(w, depth, f, args, r.store);
        CallWithOther(w, fuel, depth, f, args, r.store);
        Finish(w, x, k, temps, st, n, r.value, r.store, end, CallOther(w, depth, f, args, r.store), fuel);
        n := n + 1;
      }
    }
  }

  lemma PartsOfCall(e: Expr)
    requires e.Call?
    ensures Parts(e) == e.args + [e.callee]
  {
  }

  lemma CallOtherTotal(w: World, depth: nat, f: Value, args: seq<Value>, st: Store)
    requires !Enters(w, depth, f, args)
    ensures CallOther(w, depth, f, args, st) != Stopped(OutOfFuel)
  {
  }

  lemma CallWithOther(w: World, fuel: nat, depth: nat, f: Value, args: seq<Value>, st: Store)
    requires depth <= FRAMES_MAX && !Enters(w, depth, f, args)
    ensures CallWith(w, fuel, depth, f, args, st) == CallOther(w, depth, f, args, st)
  {
    hide CallOther, Enters;
  }

  lemma JoinCall(w: World, x: Activation, k: nat, temps: seq<Value>, st: Store, n: nat, vs: seq<Value>, st1: Store,
      k1: nat, m: nat, r: Result<Value>, fuel: nat)
    requires SimAt(w, x, k, temps, st, n, Ok(vs, st1), k1, fuel) && k1 < |x.items|
    requires Sim(w, x, Conf(w, x, Offset(x.items, k1), temps + vs, st1), m, One(r), Offset(x.items, k1 + 1), temps,
        fuel)
    ensures SimAt(w, x, k, temps, st, n + m, One(r), k1 + 1, fuel)
  {
    hide Conf, Offset, Sim;
    var s, s1 := Conf(w, x, Offset(x.items, k), temps, st), Conf(w, x, Offset(x.items, k1), temps + vs, st1);
    SimOk(w, x, s, n, vs, st1, Offset(x.items, k1), temps, fuel);
    SimSeq(w, x, s, n, s1, m, One(r), Offset(x.items, k1 + 1), temps, fuel);
  }

  lemma SimOk(w: World, x: Activation, s: State, n: nat, vs: seq<Value>, st1: Store, ip: nat, temps: seq<Value>,
      fuel: nat)
    requires Sim(w, x, s, n, Ok(vs, st1), ip, temps, fuel)
    ensures Run(w, s, n) == Running(Conf(w, x, ip, temps + vs, st1))
  {
  }

  // The call, the body of the function in an activation of its own, and the return.
  lemma {:induction false} SimEnter(w: World, x: Activation, k: nat, e: Expr, f: Function, args: seq<Value>,
      temps: seq<Value>, fuel: nat, st: Store) returns (n: nat)
    requires Sound(w) && Wellformed(w, x) && |args| < 0x100 && At(x.items, k, [Plain(CallOp(|args|))])
    requires Enters(w, |x.saved| + 1, Closure(f), args)
    ensures k < |x.items|
    ensures Sim(w, x, Conf(w, x, Offset(x.items, k), temps + (args + [Closure(f)]), st), n,
                One(CallWith(w, fuel, |x.saved| + 1, Closure(f), args, st)), Offset(x.items, k + 1), temps, fuel)
    decreases FRAMES_MAX - |x.saved|, fuel, e, 0
  {
    hide Conf, Step, Offset, At, CodeS, FitsS, Image, ChunkOf, Completes, Exec;
    AtBound(x.items, k, [Plain(CallOp(|args|))]);
    var y := Callee(w, x, k, f, temps, st);
    var sc, st0 := Scope(false, f.params), Store(Bind(f.params, args), st.globals, st.heap);
    var code := CodeS(w.ar, sc, f.code);
    var s0, s1 := Conf(w, x, Offset(x.items, k), temps + (args + [Closure(f)]), st), Conf(w, y, 0, [], st0);
    EnterStep(w, x, k, f, args, temps, st);
    RunStep(w, s0, 0, s0);
    CalleeReady(w, y, f, args, st0);

    var m := SimS(w, y, 0, sc, f.code, None, 0, 0, fuel, st0);
    var r := Exec(w, false, fuel, |y.saved| + 1, f.code, st0);
    CompletesLater(w, y, s0, 1, s1, m, r, Offset(y.items, |code|), 0, 0, fuel);
    n := SimLeave(w, x, k, f, temps, st, s0, 1 + m, r, |code|, 0, 0, fuel);
  }

  lemma CalleeReady(w: World, y: Activation, f: Function, args: seq<Value>, st0: Store)
    requires Sound(w) && w.admits(f) && y.items == FunctionCode(w.ar, f) && |y.saved| < FRAMES_MAX
    requires |f.params| == |args| && st0.env == Bind(f.params, args)
    ensures var sc, code := Scope(false, f.params), CodeS(w.ar, Scope(false, f.params), f.code);
            && Wellformed(w, y) && ReadyS(w, y, 0, code, sc, st0, None, 0, 0) && FitsS(sc, f.code, None)
            && At(y.items, |code|, ENDING) && Offset(y.items, 0) == 0
  {
    hide Exact, Faithful, FitsS, CodeS;
    assert FitsFunction(w.ar, f);
    assert Names(st0.env) == f.params;
    var code := CodeS(w.ar, Scope(false, f.params), f.code);
    assert y.items[..|code|] == code && y.items[|code|..] == ENDING;
    assert y.items[..0] == [];
  }

  lemma {:induction false} SimLeave(w: World, x: Activation, k: nat, f: Function, temps: seq<Value>, st: Store,
      s: State, n: nat, r: Result<Completion>, j: nat, start: int, exit: int, fuel: nat) returns (n': nat)
    requires k < |x.items|
    requires var y := Callee(w, x, k, f, temps, st);
             Wellformed(w, y) && At(y.items, j, ENDING)
                 && Completes(w, y, s, n, r, Offset(y.items, j), start, exit, fuel)
    ensures Sim(w, x, s, n', One(if r.Stopped? then Stopped(r.why) else Leave(r.value, st.env, r.store)),
        Offset(x.items, k + 1), temps, fuel)
  {
    hide Conf, Step, Offset, At, Run, Image, Callee, Wellformed;
    var y := Callee(w, x, k, f, temps, st);
    n' := n;
    if r.Ok? && r.value.Normal? {
      assert ENDING == [Plain(PushNull)] + [Plain(ReturnOp)];
      AtSplit(y.items, j, [Plain(PushNull)], [Plain(ReturnOp)]);
      SimplePush(w, y, j, PushNull, Null, [], r.store);
      ImageOk(w, y, Offset(y.items, j + 1), [], Null, r.store);
      RunStep(w, s, n, Conf(w, y, Offset(y.items, j), [], r.store));
      n' := LeaveFrom(w, x, k, f, temps, st, s, n + 1, j + 1, Null, r.store, r.store.env, fuel);
    } else if r.Ok? && r.value.Returned? {
      var at: nat, env :| Returns(w, y, s, n, r.value.value, r.store, at, env);
      n' := LeaveFrom(w, x, k, f, temps, st, s, n, at, r.value.value, r.store, env, fuel);
    }
  }

  lemma ImageOk(w: World, x: Activation, ip: nat, temps: seq<Value>, v: Value, st: Store)
    ensures Image(w, x, ip, temps, Ok(v, st)) == Running(Conf(w, x, ip, temps + [v], st))
    ensures temps == [] ==> temps + [v] == [v]
  {
    hide Conf;
  }

  // From a RETURN of the callee to the instruction after the call.
  lemma LeaveFrom(w: World, x: Activation, k: nat, f: Function, temps: seq<Value>, st: Store, s: State, n: nat, j: nat,
      v: Value, st1: Store, env: seq<Binding>, fuel: nat) returns (n': nat)
    requires k < |x.items|
    requires var y := Callee(w, x, k, f, temps, st);
             && Wellformed(w, y) && At(y.items, j, [Plain(ReturnOp)])
             && Run(w, s, n) == Running(Conf(w, y, Offset(y.items, j), [v], st1.(env := env)))
    ensures Sim(w, x, s, n', Ok([v], st1.(env := st.env)), Offset(x.items, k + 1), temps, fuel)
  {
    hide Conf, Step, Offset, At, Run, Callee, Wellformed;
    var y := Callee(w, x, k, f, temps, st);
    AtBound(y.items, j, [Plain(ReturnOp)]);
    LeaveStep(w, x, k, f, temps, st, j, v, st1.(env := env));
    RunStep(w, s, n, Conf(w, y, Offset(y.items, j), [v], st1.(env := env)));
    assert st1.(env := env).(env := st.env) == st1.(env := st.env);
    n' := n + 1;
  }
}

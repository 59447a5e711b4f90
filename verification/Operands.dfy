/**
 Every operator evaluates a list of operands and then runs one instruction: the code, the domain and the
 meaning of an expression, restated in terms of its operand list.
 */
module Operands {
  import opened Syntax
  import opened Arithmetic
  import opened Values
  import opened Primitives
  import opened Bytecode
  import opened Assembly
  import opened Codegen
  import opened Domain
  import opened Vm
  import opened Semantics
  import opened Machine
  import opened Instructions
  import opened Runs

  // ----- operands: every operator evaluates a list of expressions and then runs one instruction -----

  lemma EvalOne(w: World, top: bool, fuel: nat, depth: nat, a: Expr, st: Store)
    requires depth <= FRAMES_MAX
    ensures EvalAll(w, top, fuel, depth, [a], st) == One(Eval(w, top, fuel, depth, a, st))
  {
    hide Eval;
    assert [a][1..] == [];
    var r := Eval(w, top, fuel, depth, a, st);
    if r.Ok? {
      assert [r.value] + [] == [r.value];
    }
  }

  lemma EvalMore(w: World, top: bool, fuel: nat, depth: nat, a: Expr, es: seq<Expr>, st: Store)
    requires depth <= FRAMES_MAX
    ensures var r := Eval(w, top, fuel, depth, a, st);
            EvalAll(w, top, fuel, depth, [a] + es, st) ==
            if r.Ok? then Then([r.value], EvalAll(w, top, fuel, depth, es, r.store)) else Stopped(r.why)
  {
    hide Eval;
    assert ([a] + es)[1..] == es;
  }

  lemma CodeMore(ar: Arith, sc: Scope, a: Expr, es: seq<Expr>)
    ensures CodeAll(ar, sc, [a] + es) == CodeE(ar, sc, a) + CodeAll(ar, ScopeE(sc, a), es)
    ensures ScopeAll(sc, [a] + es) == ScopeAll(ScopeE(sc, a), es)
  {
    hide CodeE, ScopeE;
    assert ([a] + es)[1..] == es;
  }

  lemma FitsMore(sc: Scope, a: Expr, es: seq<Expr>, pending: bool)
    ensures FitsAll(sc, [a] + es, pending) <==> FitsE(sc, a, pending) && FitsAll(ScopeE(sc, a), es, true)
  {
    hide FitsE, ScopeE;
    assert ([a] + es)[1..] == es;
  }

  predicate StoresSub(e: Expr) {
    e.Assign? && (e.target.Subscript? || e.target.Member?)
  }

  // Expressions that are operands followed by one instruction which does not depend on the scope.
  predicate IsOperation(e: Expr) {
    || e.Array? || e.MapLit? || e.Subscript? || e.Slice? || e.Member? || StoresSub(e) || e.Call?
    || (e.Unary? && !FoldsUnary(e.uop, e.operand))
    || (e.Binary? && !Vanishes(e.bop, e.lhs, e.rhs) && !Folds(e.bop, e.lhs, e.rhs))
  }

  function OptionalPart(e: Option<Expr>): seq<Expr> {
    if e.Some? then [e.value] else []
  }

  function Parts(e: Expr): seq<Expr>
    requires IsOperation(e)
  {
    match e
    case Array(items) => items
    case MapLit(items) => items
    case Subscript(t, i) => [i] + [t]
    case Slice(t, from, to) => OptionalPart(to) + (OptionalPart(from) + [t])
    case Member(t, x) => [Expr.Str(x)] + [t]
    case Assign(_, t, v) => (match t
                             case Subscript(t1, i) => [v] + ([i] + [t1])
                             case Member(t1, x) => [v] + ([Expr.Str(x)] + [t1]))
    case Unary(_, e1) => [e1]
    case Binary(_, l, r) => [l] + [r]
    case Call(callee, args) => args + [callee]
  }

  function LastCode(e: Expr): seq<Item>
    requires IsOperation(e)
  {
    match e
    case Array(items) => [Plain(MakeArray(|items| % 0x1_0000_0000))]
    case MapLit(items) => [Plain(MakeMap(|items| / 2 % 0x1_0000_0000))]
    case Subscript(_, _) => [Plain(GetSub)]
    case Slice(_, from, to) => [Plain(SliceInstr(from, to))]
    case Member(_, _) => [Plain(GetSub)]
    case Assign(op, _, _) => StoreSubCode(op)
    case Unary(op, _) => [Plain(UnaryInstr(op))]
    case Binary(op, _, _) => [Plain(Operate(op))]
    case Call(_, args) => [Plain(CallOp(|args| % 0x100))]
  }

  lemma CodeOnly(ar: Arith, sc: Scope, a: Expr)
    ensures CodeAll(ar, sc, [a]) == CodeE(ar, sc, a) && ScopeAll(sc, [a]) == ScopeE(sc, a)
  {
    hide CodeE, ScopeE;
    assert [a][1..] == [];
  }

  lemma {:induction false} CodeAppend(ar: Arith, sc: Scope, es: seq<Expr>, a: Expr)
    ensures CodeAll(ar, sc, es + [a]) == CodeAll(ar, sc, es) + CodeE(ar, ScopeAll(sc, es), a)
    decreases |es|
  {
    hide CodeE, ScopeE;
    if es == [] {
      assert es + [a] == [a];
      CodeOnly(ar, sc, a);
    } else {
      CodeAppend(ar, ScopeE(sc, es[0]), es[1..], a);
      assert (es + [a])[1..] == es[1..] + [a];
    }
  }

  lemma {:induction false} FitsAppend(sc: Scope, es: seq<Expr>, a: Expr, pending: bool)
    requires FitsAll(sc, es, pending) && FitsE(ScopeAll(sc, es), a, pending || es != [])
    ensures FitsAll(sc, es + [a], pending)
    decreases |es|
  {
    hide FitsE, ScopeE;
    if es == [] {
      assert es + [a] == [a];
    } else {
      FitsAppend(ScopeE(sc, es[0]), es[1..], a, true);
      assert (es + [a])[1..] == es[1..] + [a];
    }
  }

  lemma CodeOfParts(ar: Arith, sc: Scope, e: Expr)
    requires IsOperation(e)
    ensures CodeE(ar, sc, e) == CodeAll(ar, sc, Parts(e)) + LastCode(e) && |LastCode(e)| == 1
  {
    hide CodeAll, ScopeAll;
    match e
    case Subscript(t, i) =>
      CodeMore(ar, sc, i, [t]);
      CodeOnly(ar, ScopeE(sc, i), t);
    case Slice(_, _, _) => CodeOfSlice(ar, sc, e);
    case Member(t, x) =>
      CodeMore(ar, sc, Expr.Str(x), [t]);
      CodeOnly(ar, sc, t);
    case Assign(_, _, _) => CodeOfStore(ar, sc, e);
    case Unary(_, e1) => CodeOnly(ar, sc, e1);
    case Binary(_, l, r) =>
      CodeMore(ar, sc, l, [r]);
      CodeOnly(ar, ScopeE(sc, l), r);
    case Call(callee, args) => CodeAppend(ar, sc, args, callee);
    case _ =>
  }

  lemma CodeOption(ar: Arith, sc: Scope, o: Option<Expr>, rest: seq<Expr>)
    ensures CodeAll(ar, sc, OptionalPart(o) + rest) == CodeO(ar, sc, o) + CodeAll(ar, ScopeO(sc, o), rest)
  {
    hide CodeE, CodeAll, ScopeAll;
    if o.Some? {
      CodeMore(ar, sc, o.value, rest);
    } else {
      assert OptionalPart(o) + rest == rest;
    }
  }

  lemma CodeOfSlice(ar: Arith, sc: Scope, e: Expr)
    requires e.Slice?
    ensures CodeE(ar, sc, e) == CodeAll(ar, sc, Parts(e)) + LastCode(e)
  {
    hide CodeAll, CodeO, ScopeAll, ScopeO, OptionalPart;
    var Slice(t, from, to) := e;
    var sc1 := ScopeO(sc, to);
    CodeOption(ar, sc, to, OptionalPart(from) + [t]);
    CodeOption(ar, sc1, from, [t]);
    CodeOnly(ar, ScopeO(sc1, from), t);
    var a, b, c := CodeO(ar, sc, to), CodeO(ar, sc1, from), CodeE(ar, ScopeO(sc1, from), t);
    assert a + b + c == a + (b + c);
  }

  lemma {:induction false} CodeOfStore(ar: Arith, sc: Scope, e: Expr)
    requires StoresSub(e)
    ensures CodeE(ar, sc, e) == CodeAll(ar, sc, Parts(e)) + LastCode(e)
  {
    hide CodeAll, ScopeAll;
    var Assign(_, t, v) := e;
    var sc1 := ScopeE(sc, v);
    match t
    case Subscript(t1, i) =>
      CodeMore(ar, sc, v, [i] + [t1]);
      CodeMore(ar, sc1, i, [t1]);
      CodeOnly(ar, ScopeE(sc1, i), t1);
    case Member(t1, x) =>
      CodeMore(ar, sc, v, [Expr.Str(x)] + [t1]);
      CodeMore(ar, sc1, Expr.Str(x), [t1]);
      CodeOnly(ar, sc1, t1);
  }

  lemma FitsOnly(sc: Scope, a: Expr, pending: bool)
    ensures FitsAll(sc, [a], pending) <==> FitsE(sc, a, pending)
  {
    hide FitsE;
    assert [a][1..] == [];
  }

  lemma FitsOfParts(sc: Scope, e: Expr, pending: bool)
    requires IsOperation(e) && FitsE(sc, e, pending)
    ensures FitsAll(sc, Parts(e), pending)
  {
    hide FitsAll, ScopeAll;
    match e
    case Subscript(t, i) =>
      FitsMore(sc, i, [t], pending);
      FitsOnly(ScopeE(sc, i), t, true);
    case Slice(_, _, _) => FitsOfSlice(sc, e, pending);
    case Member(t, x) =>
      FitsMore(sc, Expr.Str(x), [t], pending);
      FitsOnly(sc, t, true);
    case Assign(_, _, _) => FitsOfStore(sc, e, pending);
    case Unary(_, e1) => FitsOnly(sc, e1, pending);
    case Binary(_, l, r) =>
      FitsMore(sc, l, [r], pending);
      FitsOnly(ScopeE(sc, l), r, true);
    case Call(callee, args) => FitsAppend(sc, args, callee, pending);
    case _ =>
  }

  lemma {:induction false} FitsOfSlice(sc: Scope, e: Expr, pending: bool)
    requires e.Slice? && FitsE(sc, e, pending)
    ensures FitsAll(sc, Parts(e), pending)
  {
    hide FitsAll, ScopeAll;
    var Slice(t, from, to) := e;
    var sc1 := ScopeO(sc, to);
    var rest := OptionalPart(from) + [t];
    FitsOnly(ScopeO(sc1, from), t, pending || to.Some? || from.Some?);
    if from.Some? {
      FitsMore(sc1, from.value, [t], pending || to.Some?);
    } else {
      assert rest == [t];
    }
    if to.Some? {
      FitsMore(sc, to.value, rest, pending);
    } else {
      assert Parts(e) == rest;
    }
  }

  lemma FitsOfStore(sc: Scope, e: Expr, pending: bool)
    requires StoresSub(e) && FitsE(sc, e, pending)
    ensures FitsAll(sc, Parts(e), pending)
  {
    hide FitsAll, ScopeAll;
    var Assign(_, t, v) := e;
    var sc1 := ScopeE(sc, v);
    match t
    case Subscript(t1, i) =>
      FitsMore(sc, v, [i] + [t1], pending);
      FitsMore(sc1, i, [t1], true);
      FitsOnly(ScopeE(sc1, i), t1, true);
    case Member(t1, x) =>
      FitsMore(sc, v, [Expr.Str(x)] + [t1], pending);
      FitsMore(sc1, Expr.Str(x), [t1], true);
      FitsOnly(sc1, t1, true);
  }

  // What evaluation does with the values of the operands.
  function Final(w: World, e: Expr, vs: seq<Value>, st: Store): Result<Value>
    requires IsOperation(e) && !e.Call? && |vs| == |Parts(e)|
  {
    match e
    case Array(_) => Lift(Done(NewArray(st.heap, vs)), st)
    case MapLit(_) => Lift(NewMap(st.heap, vs), st)
    case Subscript(_, _) => LiftValue(GetSubscript(w.ar, st.heap, vs[1], vs[0]), st)
    case Slice(_, from, to) =>
      var n := |vs|;
      Lift(SliceOf(w.ar, st.heap, vs[n - 1], if from.Some? then Some(vs[n - 2]) else None, if to.Some? then Some(vs[0])
          else None), st)
    case Member(_, _) => LiftValue(GetSubscript(w.ar, st.heap, vs[1], vs[0]), st)
    case Assign(op, _, _) => WriteSubscript(w, op, vs[2], vs[1], vs[0], st)
    case Unary(op, _) => LiftValue(ApplyUnary(w.ar, st.heap, op, vs[0]), st)
    case Binary(op, _, _) => Lift(Apply(w.ar, st.heap, op, vs[0], vs[1]), st)
  }

  function Finally(w: World, e: Expr, r: Result<seq<Value>>): Result<Value>
    requires IsOperation(e) && !e.Call? && (r.Ok? ==> |r.value| == |Parts(e)|)
  {
    match r
    case Ok(vs, st) => Final(w, e, vs, st)
    case Stopped(why) => Stopped(why)
  }

  lemma EvalTwo(w: World, top: bool, fuel: nat, depth: nat, a: Expr, b: Expr, st: Store)
    requires depth <= FRAMES_MAX
    ensures EvalAll(w, top, fuel, depth, [a] + [b], st) ==
            var r := Eval(w, top, fuel, depth, a, st);
            if r.Stopped? then Stopped(r.why)
            else
              var r1 := Eval(w, top, fuel, depth, b, r.store);
              if r1.Stopped? then Stopped(r1.why) else Ok([r.value, r1.value], r1.store)
  {
    hide Eval, EvalAll;
    EvalMore(w, top, fuel, depth, a, [b], st);
    var r := Eval(w, top, fuel, depth, a, st);
    if r.Ok? {
      EvalOne(w, top, fuel, depth, b, r.store);
      var r1 := Eval(w, top, fuel, depth, b, r.store);
      if r1.Ok? {
        assert [r.value] + [r1.value] == [r.value, r1.value];
      }
    }
  }

  lemma EvalStr(w: World, top: bool, fuel: nat, depth: nat, x: Name, st: Store)
    requires depth <= FRAMES_MAX
    ensures Eval(w, top, fuel, depth, Expr.Str(x), st) == Ok(Text(x), st)
  {
  }

  lemma EvalMaybe(w: World, top: bool, fuel: nat, depth: nat, o: Option<Expr>, rest: seq<Expr>, st: Store)
    requires depth <= FRAMES_MAX
    ensures EvalAll(w, top, fuel, depth, OptionalPart(o) + rest, st) ==
            var r := EvalOption(w, top, fuel, depth, o, st);
            if r.Stopped? then Stopped(r.why) else Then(OptionSeq(r.value), EvalAll(w, top, fuel, depth, rest, r.store))
    ensures var r := EvalOption(w, top, fuel, depth, o, st); r.Ok? ==> (r.value.Some? <==> o.Some?)
  {
    hide Eval, EvalAll;
    if o.Some? {
      EvalMore(w, top, fuel, depth, o.value, rest, st);
    } else {
      assert OptionalPart(o) + rest == rest;
      var r := EvalAll(w, top, fuel, depth, rest, st);
      if r.Ok? {
        assert [] + r.value == r.value;
      }
    }
  }

  lemma EvalOfPair(w: World, top: bool, fuel: nat, depth: nat, e: Expr, st: Store)
    requires depth <= FRAMES_MAX && IsOperation(e) && (e.Binary? || e.Subscript? || e.Member?)
    ensures Eval(w, top, fuel, depth, e, st) == Finally(w, e, EvalAll(w, top, fuel, depth, Parts(e), st))
  {
    hide EvalAll, Apply, GetSubscript, Lift, LiftValue;
    match e
    case Binary(_, l, r) => EvalTwo(w, top, fuel, depth, l, r, st);
    case Subscript(t, i) => EvalTwo(w, top, fuel, depth, i, t, st);
    case Member(t, x) =>
      EvalTwo(w, top, fuel, depth, Expr.Str(x), t, st);
      EvalStr(w, top, fuel, depth, x, st);
  }

  lemma EvalOfSlice(w: World, top: bool, fuel: nat, depth: nat, e: Expr, st: Store)
    requires depth <= FRAMES_MAX && e.Slice?
    ensures Eval(w, top, fuel, depth, e, st) == Finally(w, e, EvalAll(w, top, fuel, depth, Parts(e), st))
  {
    hide EvalAll, EvalOption, SliceOf, Lift, OptionalPart;
    var Slice(t, from, to) := e;
    EvalMaybe(w, top, fuel, depth, to, OptionalPart(from) + [t], st);
    var end := EvalOption(w, top, fuel, depth, to, st);
    if end.Ok? {
      EvalMaybe(w, top, fuel, depth, from, [t], end.store);
      var start := EvalOption(w, top, fuel, depth, from, end.store);
      if start.Ok? {
        EvalOne(w, top, fuel, depth, t, start.store);
      }
    }
  }

  lemma EvalOfStore(w: World, top: bool, fuel: nat, depth: nat, e: Expr, st: Store)
    requires depth <= FRAMES_MAX && StoresSub(e)
    ensures Eval(w, top, fuel, depth, e, st) == Finally(w, e, EvalAll(w, top, fuel, depth, Parts(e), st))
  {
    hide EvalAll, WriteSubscript;
    var Assign(_, t, v) := e;
    var rest := if t.Subscript? then [t.index] + [t.target] else [Expr.Str(t.name)] + [t.target];
    EvalMore(w, top, fuel, depth, v, rest, st);
    var r := Eval(w, top, fuel, depth, v, st);
    if r.Ok? {
      match t
      case Subscript(t1, i) => EvalTwo(w, top, fuel, depth, i, t1, r.store);
      case Member(t1, x) =>
        EvalTwo(w, top, fuel, depth, Expr.Str(x), t1, r.store);
        EvalStr(w, top, fuel, depth, x, r.store);
    }
  }

  lemma EvalOfParts(w: World, top: bool, fuel: nat, depth: nat, e: Expr, st: Store)
    requires depth <= FRAMES_MAX && IsOperation(e) && !e.Call?
    ensures Eval(w, top, fuel, depth, e, st) == Finally(w, e, EvalAll(w, top, fuel, depth, Parts(e), st))
  {
    hide EvalAll, Apply, ApplyUnary, GetSubscript, SliceOf, WriteSubscript, Lift, LiftValue;
    match e
    case Slice(_, _, _) => EvalOfSlice(w, top, fuel, depth, e, st);
    case Assign(_, _, _) => EvalOfStore(w, top, fuel, depth, e, st);
    case Unary(_, e1) => EvalOne(w, top, fuel, depth, e1, st);
    case Array(_) =>
    case MapLit(_) =>
    case _ => EvalOfPair(w, top, fuel, depth, e, st);
  }

  lemma {:induction false} FinalStep(w: World, x: Activation, k: nat, sc: Scope, e: Expr, pending: bool,
      vs: seq<Value>, temps: seq<Value>, st: Store)
    requires IsOperation(e) && !e.Call? && |vs| == |Parts(e)| && FitsE(sc, e, pending)
    requires Wellformed(w, x) && At(x.items, k, LastCode(e))
    ensures Step(w, Conf(w, x, Offset(x.items, k), temps + vs, st)) ==
            Image(w, x, Offset(x.items, k + 1), temps, Final(w, e, vs, st))
  {
    hide Wellformed, At, Offset, Step, Conf, Image, Apply, ApplyUnary, GetSubscript, SliceOf, WriteSubscript, NewArray,
        NewMap, Lift, LiftValue;
    match e
    case Array(_) => MakeArrayStep(w, x, k, vs, temps, st);
    case MapLit(_) => MakeMapStep(w, x, k, vs, temps, st);
    case Slice(_, _, _) => FinalSlice(w, x, k, e, vs, temps, st);
    case _ => FinalSmall(w, x, k, e, vs, temps, st);
  }

  lemma {:induction false} FinalSlice(w: World, x: Activation, k: nat, e: Expr, vs: seq<Value>, temps: seq<Value>,
      st: Store)
    requires e.Slice? && |vs| == |Parts(e)| && Wellformed(w, x) && At(x.items, k, LastCode(e))
    ensures Step(w, Conf(w, x, Offset(x.items, k), temps + vs, st)) ==
            Image(w, x, Offset(x.items, k + 1), temps, Final(w, e, vs, st))
  {
    hide Wellformed, At, Offset, Step, Conf, Image, SliceOf, Lift;
    var from, to, n := e.start, e.end, |vs|;
    var start := if from.Some? then Some(vs[n - 2]) else None;
    var end := if to.Some? then Some(vs[0]) else None;
    assert vs == OptionSeq(end) + OptionSeq(start) + [vs[n - 1]];
    SliceStep(w, x, k, from, to, start, end, vs[n - 1], temps, st);
  }

  lemma {:induction false} FinalSmall(w: World, x: Activation, k: nat, e: Expr, vs: seq<Value>, temps: seq<Value>,
      st: Store)
    requires IsOperation(e) && (e.Subscript? || e.Member? || e.Assign? || e.Unary? || e.Binary?)
    requires |vs| == |Parts(e)| && Wellformed(w, x) && At(x.items, k, LastCode(e))
    ensures Step(w, Conf(w, x, Offset(x.items, k), temps + vs, st)) ==
            Image(w, x, Offset(x.items, k + 1), temps, Final(w, e, vs, st))
  {
    hide Wellformed, At, Offset, Step, Conf, Image, Apply, ApplyUnary, GetSubscript, WriteSubscript, Lift, LiftValue,
        StoreSubCode;
    match e
    case Assign(op, _, _) =>
      assert vs == [vs[0], vs[1], vs[2]];
      StoreSubStep(w, x, k, op, vs[0], vs[1], vs[2], temps, st);
    case Unary(op, _) =>
      assert vs == [vs[0]];
      UnaryStep(w, x, k, op, vs[0], temps, st);
    case Binary(op, _, _) =>
      assert vs == [vs[0], vs[1]];
      BinaryStep(w, x, k, op, vs[0], vs[1], temps, st);
    case Subscript(_, _) =>
      assert vs == [vs[0], vs[1]];
      GetSubStep(w, x, k, vs[0], vs[1], temps, st);
    case Member(_, _) =>
      assert vs == [vs[0], vs[1]];
      GetSubStep(w, x, k, vs[0], vs[1], temps, st);
  }

  lemma PartsSmaller(e: Expr)
    requires IsOperation(e)
    ensures forall p | p in Parts(e) :: p.Str? || p < e
  {
    match e
    case Assign(_, t, v) => assert t < e && v < e;
    case Slice(t, from, to) =>
      assert from.Some? ==> from.value < from;
      assert to.Some? ==> to.value < to;
    case _ =>
  }

  // Only statements emit jumps.
  lemma {:induction false} StraightE(ar: Arith, sc: Scope, e: Expr)
    ensures Straight(CodeE(ar, sc, e))
    decreases e, 1
  {
    hide CodeAll, FoldBinary, FoldUnary, ScopeE, CodeE;
    if IsOperation(e) {
      CodeOfParts(ar, sc, e);
      PartsSmaller(e);
      StraightAll(ar, sc, Parts(e), e);
      StraightLast(e);
      hide Straight, Parts;
      StraightAppend(CodeAll(ar, sc, Parts(e)), LastCode(e));
    } else if e.Assign? && e.target.Ident? {
      var inner, last := ValueScope(sc, e.target.name, e.value), StoreNameCode(sc, e.target.name, e.op);
      StraightE(ar, inner, e.value);
      StraightStore(ar, sc, e);
      hide Straight, StoreNameCode;
      StraightAppend(CodeE(ar, inner, e.value), last);
    } else {
      StraightLeaf(ar, sc, e);
    }
  }

  lemma StraightLast(e: Expr)
    requires IsOperation(e)
    ensures Straight(LastCode(e))
  {
  }

  lemma StraightStore(ar: Arith, sc: Scope, e: Expr)
    requires e.Assign? && e.target.Ident?
    ensures CodeE(ar, sc, e) == CodeE(ar, ValueScope(sc, e.target.name, e.value), e.value)
        + StoreNameCode(sc, e.target.name, e.op)
    ensures Straight(StoreNameCode(sc, e.target.name, e.op))
  {
  }

  lemma StraightLeaf(ar: Arith, sc: Scope, e: Expr)
    requires !IsOperation(e) && !(e.Assign? && e.target.Ident?)
    ensures Straight(CodeE(ar, sc, e))
  {
    hide CodeAll, FoldBinary, FoldUnary;
  }

  lemma {:induction false} StraightAll(ar: Arith, sc: Scope, es: seq<Expr>, parent: Expr)
    requires forall e | e in es :: e.Str? || e < parent
    ensures Straight(CodeAll(ar, sc, es))
    decreases parent, 0, |es|
  {
    hide CodeE, ScopeE;
    if es != [] {
      if es[0].Str? {
        StraightStr(ar, sc, es[0]);
      } else {
        StraightE(ar, sc, es[0]);
      }
      StraightAll(ar, ScopeE(sc, es[0]), es[1..], parent);
      StraightAppend(CodeE(ar, sc, es[0]), CodeAll(ar, ScopeE(sc, es[0]), es[1..]));
    }
  }

  lemma StraightStr(ar: Arith, sc: Scope, e: Expr)
    requires e.Str?
    ensures Straight(CodeE(ar, sc, e))
  {
  }

  lemma HoleFreeE(ar: Arith, sc: Scope, e: Expr)
    ensures HoleFree(CodeE(ar, sc, e))
  {
    hide *;
    StraightE(ar, sc, e);
    StraightHoleFree(CodeE(ar, sc, e));
  }

  lemma JumpItem(i: Instr)
    requires Width(i) == 3
    ensures Size([Plain(i)]) == 3 && HoleFree([Plain(i)])
  {
  }

  lemma WhileHoleFree(cc: seq<Item>, cb: seq<Item>)
    requires HoleFree(cc)
    ensures HoleFree(WhileCode(cc, cb))
  {
    hide Size, Resolve, HoleFree, Short16;
    var i, j := [Plain(PopJumpIfFalse(Short16(Size(cb) + 3)))], [Plain(Loop(Short16(Size(cc) + 3 + Size(cb) + 3)))];
    var body := Resolve(cb, Size(cc) + 3, Size(cb) + 3);
    ResolveSize(cb, Size(cc) + 3, Size(cb) + 3);
    JumpItem(i[0].i);
    JumpItem(j[0].i);
    HoleFreeAppend(cc, i);
    HoleFreeAppend(cc + i, body);
    HoleFreeAppend(cc + i + body, j);
  }

  // ----- calls -----

  lemma {:induction false} EvalAppend(w: World, top: bool, fuel: nat, depth: nat, es: seq<Expr>, a: Expr, st: Store)
    requires depth <= FRAMES_MAX
    ensures EvalAll(w, top, fuel, depth, es + [a], st) ==
            var r := EvalAll(w, top, fuel, depth, es, st);
            if r.Stopped? then Stopped(r.why) else Then(r.value, One(Eval(w, top, fuel, depth, a, r.store)))
    decreases |es|
  {
    hide Eval, EvalAll;
    if es == [] {
      assert es + [a] == [a];
      EvalOne(w, top, fuel, depth, a, st);
      EvalNone(w, top, fuel, depth, st);
      var r := Eval(w, top, fuel, depth, a, st);
      if r.Ok? {
        assert [] + [r.value] == [r.value];
      }
    } else {
      assert es + [a] == [es[0]] + (es[1..] + [a]) && es == [es[0]] + es[1..];
      EvalMore(w, top, fuel, depth, es[0], es[1..] + [a], st);
      EvalMore(w, top, fuel, depth, es[0], es[1..], st);
      var r := Eval(w, top, fuel, depth, es[0], st);
      if r.Ok? {
        EvalAppend(w, top, fuel, depth, es[1..], a, r.store);
        var rs := EvalAll(w, top, fuel, depth, es[1..], r.store);
        if rs.Ok? {
          var last := Eval(w, top, fuel, depth, a, rs.store);
          if last.Ok? {
            assert [r.value] + (rs.value + [last.value]) == ([r.value] + rs.value) + [last.value];
          }
        }
      }
    }
  }

  lemma EvalNone(w: World, top: bool, fuel: nat, depth: nat, st: Store)
    requires depth <= FRAMES_MAX
    ensures EvalAll(w, top, fuel, depth, [], st) == Ok([], st)
  {
  }

  // What evaluation does with the values of the arguments and the callee.
  function CallWith(w: World, fuel: nat, depth: nat, f: Value, args: seq<Value>, st: Store): Result<Value>
    requires depth <= FRAMES_MAX
  {
    if Enters(w, depth, f, args) then
      var r := Exec(w, false, fuel, depth + 1, f.f.code, Store(Bind(f.f.params, args), st.globals, st.heap));
      if r.Stopped? then Stopped(r.why) else Leave(r.value, st.env, r.store)
    else CallOther(w, depth, f, args, st)
  }

  lemma EvalOfCall(w: World, top: bool, fuel: nat, depth: nat, e: Expr, st: Store)
    requires depth <= FRAMES_MAX && e.Call?
    ensures var r := EvalAll(w, top, fuel, depth, Parts(e), st);
            var n := |e.args|;
            Eval(w, top, fuel, depth, e, st) ==
            if r.Stopped? then Stopped(r.why) else CallWith(w, fuel, depth, r.value[n], r.value[..n], r.store)
  {
    hide EvalAll, Exec, Enters, Leave, CallOther;
    var Call(callee, args) := e;
    EvalAppend(w, top, fuel, depth, args, callee, st);
    var r := EvalAll(w, top, fuel, depth, args, st);
    if r.Ok? {
      var f := Eval(w, top, fuel, depth, callee, r.store);
      if f.Ok? {
        assert (r.value + [f.value])[..|args|] == r.value;
      }
    }
  }
}

/**
 Static scoping agrees with evaluation: wherever control can be, the compiler's table of locals lists the
 variables that evaluation has bound, in the same order.
 */
module Scoping {
  import opened Syntax
  import opened Values
  import opened Primitives
  import opened Vm
  import opened Semantics
  import opened Codegen
  import opened Domain

  predicate Agrees(sc: Scope, st: Store) {
    Names(st.env) == sc.names && |sc.names| <= LOCALS_MAX && (sc.top ==> sc.names == [])
  }

  ghost predicate AgreesAfter<T>(sc: Scope, r: Result<T>) {
    r.Ok? ==> Agrees(sc, r.store)
  }

  lemma NamesPrefix(env: seq<Binding>, n: nat)
    requires n <= |env|
    ensures Names(env[..n]) == Names(env)[..n]
  {
  }

  lemma WriteNameAgrees(w: World, x: Name, op: Option<BinaryOp>, v: Value, sc: Scope, sc1: Scope, st1: Store)
    requires Agrees(sc1, st1) && sc.top == sc1.top && |sc.names| <= |sc1.names|
    requires x !in sc.names && !sc.top ==> |sc1.names| < LOCALS_MAX
    ensures var at := IndexOf(sc.names, x);
            && (at.Some? ==> at.value < |st1.env|)
            && AgreesAfter(if x in sc.names
                || sc.top then sc1 else sc1.Declare(x), WriteName(w, sc.top, x, at, op, v, st1))
  {
    hide Math;
    var at := IndexOf(sc.names, x);
    assert |Names(st1.env)| == |st1.env|;
    var r := WriteName(w, sc.top, x, at, op, v, st1);
    if r.Ok? {
      if at.Some? {
        assert Names(r.store.env) == Names(st1.env);
      } else if !sc.top {
        assert Names(r.store.env) == Names(st1.env) + [x];
      }
    }
  }

  lemma {:induction false} ScopeOfE(w: World, fuel: nat, depth: nat, e: Expr, sc: Scope, pending: bool, st: Store)
    requires depth <= FRAMES_MAX && Agrees(sc, st) && FitsE(sc, e, pending)
    ensures AgreesAfter(ScopeE(sc, e), Eval(w, sc.top, fuel, depth, e, st))
    decreases e, 1
  {
    hide Names, Apply, ApplyUnary, GetSubscript, NewMap, SliceOf, ReadName;
    match e
    case Ident(x) => ReadKeepsEnv(sc.top, x, st);
    case Array(items) => ScopeOfAll(w, fuel, depth, items, sc, pending, st);
    case MapLit(items) => ScopeOfAll(w, fuel, depth, items, sc, pending, st);
    case Subscript(_, _) => ScopeOfPair(w, fuel, depth, e, sc, pending, st);
    case Slice(t, from, to) => ScopeOfSlice(w, fuel, depth, e, sc, pending, st);
    case Member(t, _) => ScopeOfE(w, fuel, depth, t, sc, true, st);
    case Assign(_, _, _) => ScopeOfAssign(w, fuel, depth, e, sc, pending, st);
    case Unary(op, e1) =>
      if !FoldsUnary(op, e1) {
        ScopeOfE(w, fuel, depth, e1, sc, pending, st);
      }
    case Binary(_, _, _) => ScopeOfPair(w, fuel, depth, e, sc, pending, st);
    case Call(callee, args) => ScopeOfCall(w, fuel, depth, e, sc, pending, st);
    case _ =>
  }

  lemma {:induction false} ScopeOfPair(w: World, fuel: nat, depth: nat, e: Expr, sc: Scope, pending: bool, st: Store)
    requires depth <= FRAMES_MAX && Agrees(sc, st) && FitsE(sc, e, pending) && (e.Binary? || e.Subscript?)
    ensures AgreesAfter(ScopeE(sc, e), Eval(w, sc.top, fuel, depth, e, st))
    decreases e, 0
  {
    hide Names, Apply, GetSubscript;
    var first, second := if e.Binary? then e.lhs else e.index, if e.Binary? then e.rhs else e.target;
    if e.Binary? && Folds(e.bop, e.lhs, e.rhs) {
    } else {
      ScopeOfE(w, fuel, depth, first, sc, pending, st);
      var a := Eval(w, sc.top, fuel, depth, first, st);
      if a.Ok? {
        ScopeOfE(w, fuel, depth, second, ScopeE(sc, first), true, a.store);
      }
    }
  }

  lemma ReadKeepsEnv(top: bool, x: Name, st: Store)
    ensures var r := ReadName(top, x, st); r.Ok? ==> r.store == st
  {
  }

  lemma {:induction false} ScopeOfCall(w: World, fuel: nat, depth: nat, e: Expr, sc: Scope, pending: bool, st: Store)
    requires depth <= FRAMES_MAX && Agrees(sc, st) && FitsE(sc, e, pending) && e.Call?
    ensures AgreesAfter(ScopeE(sc, e), Eval(w, sc.top, fuel, depth, e, st))
    decreases e, 0
  {
    hide Exec, Enters;
    var Call(callee, args) := e;
    ScopeOfAll(w, fuel, depth, args, sc, pending, st);
    var vs := EvalAll(w, sc.top, fuel, depth, args, st);
    if vs.Ok? {
      ScopeOfE(w, fuel, depth, callee, ScopeAll(sc, args), pending || args != [], vs.store);
    }
  }

  lemma {:induction false} ScopeOfSlice(w: World, fuel: nat, depth: nat, e: Expr, sc: Scope, pending: bool, st: Store)
    requires depth <= FRAMES_MAX && Agrees(sc, st) && FitsE(sc, e, pending) && e.Slice?
    ensures AgreesAfter(ScopeE(sc, e), Eval(w, sc.top, fuel, depth, e, st))
    decreases e, 0
  {
    hide Names, SliceOf;
    var Slice(t, from, to) := e;
    ScopeOfO(w, fuel, depth, to, sc, pending, st);
    var end := EvalOption(w, sc.top, fuel, depth, to, st);
    if end.Ok? {
      var sc1 := ScopeO(sc, to);
      ScopeOfO(w, fuel, depth, from, sc1, pending || to.Some?, end.store);
      var start := EvalOption(w, sc.top, fuel, depth, from, end.store);
      if start.Ok? {
        ScopeOfE(w, fuel, depth, t, ScopeO(sc1, from), pending || to.Some? || from.Some?, start.store);
      }
    }
  }

  lemma {:induction false} ScopeOfAssign(w: World, fuel: nat, depth: nat, e: Expr, sc: Scope, pending: bool, st: Store)
    requires depth <= FRAMES_MAX && Agrees(sc, st) && FitsE(sc, e, pending) && e.Assign?
    ensures AgreesAfter(ScopeE(sc, e), Eval(w, sc.top, fuel, depth, e, st))
    decreases e, 0
  {
    hide UpdateSubscript, SetSubscript, WriteName;
    var Assign(op, t, v) := e;
    match t
    case Ident(x) =>
      var r := Eval(w, sc.top, fuel, depth, v, st);
      if !v.Fn? {
        ScopeOfE(w, fuel, depth, v, sc, pending, st);
      }
      if r.Ok? {
        WriteNameAgrees(w, x, op, r.value, sc, ScopeE(sc, v), r.store);
      }
    case Subscript(t1, i) =>
      ScopeOfE(w, fuel, depth, v, sc, pending, st);
      var r := Eval(w, sc.top, fuel, depth, v, st);
      if r.Ok? {
        var sc1 := ScopeE(sc, v);
        ScopeOfE(w, fuel, depth, i, sc1, true, r.store);
        var r1 := Eval(w, sc.top, fuel, depth, i, r.store);
        if r1.Ok? {
          ScopeOfE(w, fuel, depth, t1, ScopeE(sc1, i), true, r1.store);
        }
      }
    case Member(t1, x) =>
      ScopeOfE(w, fuel, depth, v, sc, pending, st);
      var r := Eval(w, sc.top, fuel, depth, v, st);
      if r.Ok? {
        ScopeOfE(w, fuel, depth, t1, ScopeE(sc, v), true, r.store);
      }
    case _ =>
  }

  lemma {:induction false} ScopeOfO(w: World, fuel: nat, depth: nat, e: Option<Expr>, sc: Scope, pending: bool,
      st: Store)
    requires depth <= FRAMES_MAX && Agrees(sc, st) && FitsO(sc, e, pending)
    ensures AgreesAfter(ScopeO(sc, e), EvalOption(w, sc.top, fuel, depth, e, st))
    decreases e, 0
  {
    match e
    case None =>
    case Some(e1) => ScopeOfE(w, fuel, depth, e1, sc, pending, st);
  }

  lemma {:induction false} ScopeOfAll(w: World, fuel: nat, depth: nat, es: seq<Expr>, sc: Scope, pending: bool,
      st: Store)
    requires depth <= FRAMES_MAX && Agrees(sc, st) && FitsAll(sc, es, pending)
    ensures AgreesAfter(ScopeAll(sc, es), EvalAll(w, sc.top, fuel, depth, es, st))
    decreases es, 0
  {
    hide Agrees;
    if es != [] {
      ScopeOfE(w, fuel, depth, es[0], sc, pending, st);
      var r := Eval(w, sc.top, fuel, depth, es[0], st);
      if r.Ok? {
        ScopeOfAll(w, fuel, depth, es[1..], ScopeE(sc, es[0]), true, r.store);
      }
    }
  }

  // ----- statements -----

  // After a normal completion the scope is the one that follows; a jump out leaves the locals of the loop.
  ghost predicate AgreesWith(sc: Scope, after: Scope, loop: Option<nat>, r: Result<Completion>) {
    r.Ok? ==>
      match r.value
      case Normal => Agrees(after, r.store)
      case Returned(_) => true
      case _ => loop.Some? && loop.value <= |sc.names| && Agrees(sc.(names := sc.names[..loop.value]), r.store)
  }

  lemma AgreesLater(sc: Scope, sc1: Scope, after: Scope, loop: Option<nat>, r: Result<Completion>)
    requires AgreesWith(sc1, after, loop, r) && sc.names <= sc1.names && sc.top == sc1.top
    requires loop.Some? ==> loop.value <= |sc.names|
    ensures AgreesWith(sc, after, loop, r)
  {
    if loop.Some? {
      assert sc.names[..loop.value] == sc1.names[..loop.value];
    }
  }

  lemma {:induction false} ScopeOfS(w: World, fuel: nat, depth: nat, s: Stmt, sc: Scope, loop: Option<nat>, st: Store)
    requires depth <= FRAMES_MAX && Agrees(sc, st) && FitsS(sc, s, loop)
    requires loop.Some? ==> loop.value <= |sc.names|
    ensures AgreesWith(sc, ScopeS(sc, s), loop, Exec(w, sc.top, fuel, depth, s, st))
    decreases fuel, s, 1
  {
    hide Agrees, Eval, FitsE;
    match s
    case Block(body) => ScopeOfBlock(w, fuel, depth, s, sc, loop, st);
    case Return(e) =>
    case While(_, _) => ScopeOfWhile(w, fuel, depth, s, sc, loop, st);
    case If(_, _, _) => ScopeOfIf(w, fuel, depth, s, sc, loop, st);
    case Break => assert sc.names[..|sc.names|] == sc.names;
    case Continue => assert sc.names[..|sc.names|] == sc.names;
    case ExprStmt(e) => ScopeOfE(w, fuel, depth, e, sc, false, st);
  }

  lemma {:induction false} ScopeOfBlock(w: World, fuel: nat, depth: nat, s: Stmt, sc: Scope, loop: Option<nat>,
      st: Store)
    requires depth <= FRAMES_MAX && Agrees(sc, st) && FitsS(sc, s, loop) && s.Block?
    requires loop.Some? ==> loop.value <= |sc.names|
    ensures AgreesWith(sc, ScopeS(sc, s), loop, Exec(w, sc.top, fuel, depth, s, st))
    decreases fuel, s, 0
  {
    hide ExecAll, FitsBody;
    ScopeOfBody(w, fuel, depth, s.body, sc, loop, st);
    var r := ExecAll(w, sc.top, fuel, depth, s.body, st);
    if r.Ok? && !r.value.Returned? {
      BlockExit(sc, ScopeBody(sc, s.body), loop, r, st);
    }
  }

  lemma BlockExit(sc: Scope, after: Scope, loop: Option<nat>, r: Result<Completion>, st: Store)
    requires Agrees(sc, st) && sc.names <= after.names && sc.top == after.top
    requires AgreesWith(sc, after, loop, r) && r.Ok? && !r.value.Returned? && |r.store.env| >= |st.env|
    ensures AgreesWith(sc, sc, loop, Ok(r.value, r.store.(env := r.store.env[..|st.env|])))
  {
    var n := |st.env|;
    assert |Names(st.env)| == n && |Names(r.store.env)| == |r.store.env|;
    NamesPrefix(r.store.env, n);
    if r.value.Normal? {
      assert after.names[..n] == sc.names;
    } else {
      assert r.store.env[..n] == r.store.env;
    }
  }

  lemma {:induction false} ScopeOfIf(w: World, fuel: nat, depth: nat, s: Stmt, sc: Scope, loop: Option<nat>, st: Store)
    requires depth <= FRAMES_MAX && Agrees(sc, st) && FitsS(sc, s, loop) && s.If?
    requires loop.Some? ==> loop.value <= |sc.names|
    ensures AgreesWith(sc, ScopeS(sc, s), loop, Exec(w, sc.top, fuel, depth, s, st))
    decreases fuel, s, 0
  {
    hide Agrees, Eval, FitsE, AgreesWith;
    var If(cond, a, b) := s;
    ScopeOfE(w, fuel, depth, cond, sc, false, st);
    var r := Eval(w, sc.top, fuel, depth, cond, st);
    var sc1 := ScopeE(sc, cond);
    if r.Stopped? {
      AgreesStopped(sc, ScopeS(sc, s), loop, Exec(w, sc.top, fuel, depth, s, st));
    } else if !Falsey(w.ar, r.store.heap, r.value) {
      ScopeOfS(w, fuel, depth, a, sc1, loop, r.store);
      AgreesLater(sc, sc1, sc1, loop, Exec(w, sc.top, fuel, depth, a, r.store));
    } else if b.Some? {
      ScopeOfS(w, fuel, depth, b.value, sc1, loop, r.store);
      AgreesLater(sc, sc1, sc1, loop, Exec(w, sc.top, fuel, depth, b.value, r.store));
    } else {
      AgreesNormal(sc, sc1, loop, r.store);
    }
  }

  lemma AgreesStopped(sc: Scope, after: Scope, loop: Option<nat>, r: Result<Completion>)
    requires r.Stopped?
    ensures AgreesWith(sc, after, loop, r)
  {
  }

  lemma AgreesNormal(sc: Scope, after: Scope, loop: Option<nat>, st: Store)
    requires Agrees(after, st)
    ensures AgreesWith(sc, after, loop, Ok(Normal, st))
  {
  }

  lemma {:induction false} ScopeOfWhile(w: World, fuel: nat, depth: nat, s: Stmt, sc: Scope, loop: Option<nat>,
      st: Store)
    requires depth <= FRAMES_MAX && Agrees(sc, st) && FitsS(sc, s, loop) && s.While?
    requires loop.Some? ==> loop.value <= |sc.names|
    ensures AgreesWith(sc, ScopeS(sc, s), loop, Exec(w, sc.top, fuel, depth, s, st))
    decreases fuel, s, 0
  {
    hide Agrees, Eval, FitsE;
    var While(cond, body) := s;
    ScopeOfE(w, fuel, depth, cond, sc, false, st);
    var v := Eval(w, sc.top, fuel, depth, cond, st);
    if v.Ok? && !Falsey(w.ar, v.store.heap, v.value) {
      var n := |sc.names|;
      ScopeOfS(w, fuel, depth, body, sc, Some(n), v.store);
      assert sc.(names := sc.names[..n]) == sc;
      var r := Exec(w, sc.top, fuel, depth, body, v.store);
      if r.Ok? && (r.value.Normal? || r.value.Continued?) && fuel > 0 {
        ScopeOfS(w, fuel - 1, depth, s, sc, loop, r.store);
      }
    }
  }

  lemma {:induction false} ScopeOfBody(w: World, fuel: nat, depth: nat, body: seq<Stmt>, sc: Scope, loop: Option<nat>,
      st: Store)
    requires depth <= FRAMES_MAX && Agrees(sc, st) && FitsBody(sc, body, loop)
    requires loop.Some? ==> loop.value <= |sc.names|
    ensures AgreesWith(sc, ScopeBody(sc, body), loop, ExecAll(w, sc.top, fuel, depth, body, st))
    decreases fuel, body, 0
  {
    hide Agrees, Exec, FitsS;
    if body != [] {
      ScopeOfS(w, fuel, depth, body[0], sc, loop, st);
      var r := Exec(w, sc.top, fuel, depth, body[0], st);
      var sc1 := ScopeS(sc, body[0]);
      if r.Ok? && r.value.Normal? {
        ScopeOfBody(w, fuel, depth, body[1..], sc1, loop, r.store);
        AgreesLater(sc, sc1, ScopeBody(sc, body), loop, ExecAll(w, sc.top, fuel, depth, body[1..], r.store));
      }
    }
  }
}

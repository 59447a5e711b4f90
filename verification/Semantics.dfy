/**
 What Nur programs mean, independently of bytecode: evaluation over an environment of named bindings.
 A function body sees its own parameters and locals, then the globals. Loops take fuel for every
 repetition, so that evaluation is total.
 */
module Semantics {
  import opened Syntax
  import opened Arithmetic
  import opened Values
  import opened Primitives
  import opened Vm

  datatype Binding = Binding(name: Name, value: Value)

  // The bindings of the running function, oldest first; always empty at the top level of a file.
  datatype Store = Store(env: seq<Binding>, globals: map<Name, Value>, heap: Heap)

  /** Why evaluation did not produce a value. Unclear: the result depends on something left out, or the
      program relies on an operation whose failure the machine ignores. */
  datatype Stop = Failure | Unclear | OutOfFuel

  datatype Result<+T> = Ok(value: T, store: Store) | Stopped(why: Stop) {
    predicate IsFailure() { Stopped? }
    function PropagateFailure<U>(): Result<U>
      requires Stopped?
    { Stopped(why) }
    function Extract(): (T, Store)
      requires Ok?
    { (value, store) }
  }

  datatype Completion = Normal | Broke | Continued | Returned(value: Value)

  function Names(env: seq<Binding>): (r: seq<Name>)
    ensures |r| == |env|
  {
    seq(|env|, i requires 0 <= i < |env| => env[i].name)
  }

  function Lookup(env: seq<Binding>, x: Name): (r: Option<nat>)
    ensures r.Some? ==> r.value < |env| && env[r.value].name == x
  {
    IndexOf(Names(env), x)
  }

  function Bind(params: seq<Name>, args: seq<Value>): seq<Binding>
    requires |params| == |args|
  {
    seq(|params|, i requires 0 <= i < |params| => Binding(params[i], args[i]))
  }

  // A primitive with a result that goes on the heap; a failed one is an error of the program.
  function Lift(r: Res<(Value, Heap)>, st: Store): Result<Value> {
    match r
    case Done((v, heap)) => Ok(v, st.(heap := heap))
    case Unmodelled => Stopped(Unclear)
    case _ => Stopped(Failure)
  }

  function LiftValue(r: Res<Value>, st: Store): Result<Value> {
    match r
    case Done(v) => Ok(v, st)
    case Unmodelled => Stopped(Unclear)
    case _ => Stopped(Failure)
  }

  // lhs op= rhs on a variable: where the operator fails the machine goes on, so the result is Unclear.
  function LiftMath(r: Res<(Value, Heap)>, st: Store): Result<Value> {
    match r
    case Done((v, heap)) => Ok(v, st.(heap := heap))
    case Exits => Stopped(Failure)
    case _ => Stopped(Unclear)
  }

  function ReadName(top: bool, x: Name, st: Store): Result<Value> {
    if x == NULL_NAME then Ok(Null, st)
    else if x == TRUE_NAME then Ok(Bool(true), st)
    else if x == FALSE_NAME then Ok(Bool(false), st)
    else match Lookup(st.env, x)
         case Some(i) => Ok(st.env[i].value, st)
         case None => if x in st.globals then Ok(st.globals[x], st) else Stopped(Failure)
  }

  /** x = v or x op= v. The binding `at` was looked up before v was computed. A name that a function
      body does not know becomes a new local, and the operator of a compound assignment is then ignored. */
  function WriteName(w: World, top: bool, x: Name, at: Option<nat>, op: Option<BinaryOp>, v: Value,
      st: Store): Result<Value>
    requires at.Some? ==> at.value < |st.env|
  {
    match at
    case Some(i) =>
      var (r, st1) :- (if op == None then Ok(v, st)
          else LiftMath(Math(w.ar, st.heap, op.value, st.env[i].value, v), st));
      Ok(r, st1.(env := st.env[i := Binding(st.env[i].name, r)]))
    case None =>
      if !top then Ok(v, st.(env := st.env + [Binding(x, v)]))
      else if op == None then Ok(v, st.(globals := st.globals[x := v]))
      else if x !in st.globals then Stopped(Failure)
      else
        var (r, st1) :- LiftMath(Math(w.ar, st.heap, op.value, st.globals[x], v), st);
        Ok(r, st1.(globals := st.globals[x := r]))
  }

  // target[index] = v or target[index] op= v.
  function WriteSubscript(w: World, op: Option<BinaryOp>, target: Value, index: Value, v: Value,
      st: Store): Result<Value> {
    if op.Some? then Lift(UpdateSubscript(w.ar, st.heap, op.value, target, index, v), st)
    else
      match SetSubscript(w.ar, st.heap, target, index, v)
      case Done(heap) => Ok(v, st.(heap := heap))
      case Unmodelled => Stopped(Unclear)
      case _ => Stopped(Failure)
  }

  predicate Enters(w: World, depth: nat, callee: Value, args: seq<Value>) {
    callee.Closure? && |callee.f.params| == |args| && depth < FRAMES_MAX && w.admits(callee.f)
  }

  // The caller gets the returned value, or null when the body ran to its end.
  function Leave(c: Completion, env: seq<Binding>, st: Store): (r: Result<Value>)
    ensures r.Ok? ==> r.store.env == env
  {
    match c
    case Returned(v) => Ok(v, st.(env := env))
    case Normal => Ok(Null, st.(env := env))
    case _ => Stopped(Unclear) // rejected by the compiler
  }

  // A call that does not run a function body of this program.
  function CallOther(w: World, depth: nat, callee: Value, args: seq<Value>, st: Store): (r: Result<Value>)
    requires !Enters(w, depth, callee, args)
    ensures r.Ok? ==> r.store.env == st.env
  {
    match callee
    case Closure(f) => if |f.params| != |args| || depth >= FRAMES_MAX then Stopped(Failure) else Stopped(Unclear)
    case Native(id) => Lift(w.native(id, st.heap, args), st)
    case FunctionObj(_, _) => Stopped(Unclear) // never a value of a program
    case _ => Stopped(Failure)
  }

  function Eval(w: World, top: bool, fuel: nat, depth: nat, e: Expr, st: Store): (r: Result<Value>)
    requires depth <= FRAMES_MAX
    ensures r.Ok? ==> |r.store.env| >= |st.env|
    decreases FRAMES_MAX - depth, fuel, e, 1
  {
    match e
    case Ident(x) => ReadName(top, x, st)
    case Str(s) => Ok(Text(s), st)
    case Int(n) => Ok(Num(w.ar.ofInt(n)), st)
    case Float(d) => Ok(Num(d), st)
    case Fn(f) => Ok(Closure(f), st)
    case Array(items) =>
      var (vs, st1) :- EvalAll(w, top, fuel, depth, items, st);
      Lift(Done(NewArray(st1.heap, vs)), st1)
    case MapLit(items) =>
      var (vs, st1) :- EvalAll(w, top, fuel, depth, items, st);
      Lift(NewMap(st1.heap, vs), st1)
    case Subscript(t, i) =>
      var (index, st1) :- Eval(w, top, fuel, depth, i, st);
      var (target, st2) :- Eval(w, top, fuel, depth, t, st1);
      LiftValue(GetSubscript(w.ar, st2.heap, target, index), st2)
    case Member(t, x) =>
      var (target, st1) :- Eval(w, top, fuel, depth, t, st);
      LiftValue(GetSubscript(w.ar, st1.heap, target, Text(x)), st1)
    case Slice(t, from, to) =>
      var (end, st1) :- EvalOption(w, top, fuel, depth, to, st);
      var (start, st2) :- EvalOption(w, top, fuel, depth, from, st1);
      var (target, st3) :- Eval(w, top, fuel, depth, t, st2);
      Lift(SliceOf(w.ar, st3.heap, target, start, end), st3)
    case Assign(_, _, _) => EvalAssign(w, top, fuel, depth, e, st)
    case Unary(op, e1) =>
      var (v, st1) :- Eval(w, top, fuel, depth, e1, st);
      LiftValue(ApplyUnary(w.ar, st1.heap, op, v), st1)
    case Binary(op, l, r) =>
      var (a, st1) :- Eval(w, top, fuel, depth, l, st);
      var (b, st2) :- Eval(w, top, fuel, depth, r, st1);
      Lift(Apply(w.ar, st2.heap, op, a, b), st2)
    case Call(callee, args) =>
      var (vs, st1) :- EvalAll(w, top, fuel, depth, args, st);
      var (f, st2) :- Eval(w, top, fuel, depth, callee, st1);
      if Enters(w, depth, f, vs) then
        var (c, st3) :- Exec(w, false, fuel, depth + 1, f.f.code, Store(Bind(f.f.params, vs), st2.globals, st2.heap));
        Leave(c, st2.env, st3)
      else CallOther(w, depth, f, vs, st2)
  }

  function EvalAssign(w: World, top: bool, fuel: nat, depth: nat, e: Expr, st: Store): (r: Result<Value>)
    requires depth <= FRAMES_MAX && e.Assign?
    ensures r.Ok? ==> |r.store.env| >= |st.env|
    decreases FRAMES_MAX - depth, fuel, e, 0
  {
    var Assign(op, t, value) := e;
    match t
    case Ident(x) =>
      var at := Lookup(st.env, x);
      var (v, st1) :- Eval(w, top, fuel, depth, value, st);
      WriteName(w, top, x, at, op, v, st1)
    case Subscript(t1, i) =>
      var (v, st1) :- Eval(w, top, fuel, depth, value, st);
      var (index, st2) :- Eval(w, top, fuel, depth, i, st1);
      var (target, st3) :- Eval(w, top, fuel, depth, t1, st2);
      WriteSubscript(w, op, target, index, v, st3)
    case Member(t1, x) =>
      var (v, st1) :- Eval(w, top, fuel, depth, value, st);
      var (target, st2) :- Eval(w, top, fuel, depth, t1, st1);
      WriteSubscript(w, op, target, Text(x), v, st2)
    case _ => Stopped(Unclear) // rejected by the compiler
  }

  function EvalOption(w: World, top: bool, fuel: nat, depth: nat, e: Option<Expr>,
      st: Store): (r: Result<Option<Value>>)
    requires depth <= FRAMES_MAX
    ensures r.Ok? ==> |r.store.env| >= |st.env|
    decreases FRAMES_MAX - depth, fuel, e, 0
  {
    match e
    case None => Ok(None, st)
    case Some(e1) =>
      var (v, st1) :- Eval(w, top, fuel, depth, e1, st);
      Ok(Some(v), st1)
  }

  function EvalAll(w: World, top: bool, fuel: nat, depth: nat, es: seq<Expr>, st: Store): (r: Result<seq<Value>>)
    requires depth <= FRAMES_MAX
    ensures r.Ok? ==> |r.value| == |es| && |r.store.env| >= |st.env|
    decreases FRAMES_MAX - depth, fuel, es, 0
  {
    if es == [] then Ok([], st)
    else
      var (v, st1) :- Eval(w, top, fuel, depth, es[0], st);
      var (vs, st2) :- EvalAll(w, top, fuel, depth, es[1..], st1);
      Ok([v] + vs, st2)
  }

  function Exec(w: World, top: bool, fuel: nat, depth: nat, s: Stmt, st: Store): (r: Result<Completion>)
    requires depth <= FRAMES_MAX
    ensures r.Ok? ==> |r.store.env| >= |st.env|
    decreases FRAMES_MAX - depth, fuel, s, 1
  {
    match s
    case Block(body) =>
      var (c, st1) :- ExecAll(w, top, fuel, depth, body, st);
      Ok(c, st1.(env := st1.env[..|st.env|])) // however the block is left
    case Return(e) =>
      var (v, st1) :- Eval(w, top, fuel, depth, e, st);
      Ok(Returned(v), st1)
    case While(cond, body) =>
      var (v, st1) :- Eval(w, top, fuel, depth, cond, st);
      if Falsey(w.ar, st1.heap, v) then Ok(Normal, st1)
      else
        var (c, st2) :- Exec(w, top, fuel, depth, body, st1);
        (match c
         case Broke => Ok(Normal, st2)
         case Returned(_) => Ok(c, st2)
         case _ => if fuel == 0 then Stopped(OutOfFuel) else Exec(w, top, fuel - 1, depth, s, st2))
    case If(cond, thenCase, elseCase) =>
      var (v, st1) :- Eval(w, top, fuel, depth, cond, st);
      if !Falsey(w.ar, st1.heap, v) then Exec(w, top, fuel, depth, thenCase, st1)
      else if elseCase.Some? then Exec(w, top, fuel, depth, elseCase.value, st1)
      else Ok(Normal, st1)
    case Break => Ok(Broke, st)
    case Continue => Ok(Continued, st)
    case ExprStmt(e) =>
      var (v, st1) :- Eval(w, top, fuel, depth, e, st);
      Ok(Normal, st1)
  }

  function ExecAll(w: World, top: bool, fuel: nat, depth: nat, body: seq<Stmt>, st: Store): (r: Result<Completion>)
    requires depth <= FRAMES_MAX
    ensures r.Ok? ==> |r.store.env| >= |st.env|
    decreases FRAMES_MAX - depth, fuel, body, 0
  {
    if body == [] then Ok(Normal, st)
    else
      var (c, st1) :- Exec(w, top, fuel, depth, body[0], st);
      if c.Normal? then ExecAll(w, top, fuel, depth, body[1..], st1) else Ok(c, st1)
  }
}

/**
 Configurations of the virtual machine that correspond to a point of evaluation, and how runs between
 them compose. Above the frames and values of the callers the stack holds the bindings of the running
 function, then the pending values of the enclosing expressions.
 */
module Machine {
  import opened Syntax
  import opened Arithmetic
  import opened Values
  import opened Primitives
  import opened Bytecode
  import opened Assembly
  import opened Vm
  import opened Semantics

  // The activation that runs: its listing, the suspended frames, and the stack below its own slots.
  datatype Activation = Activation(items: seq<Item>, saved: seq<Frame>, below: seq<Value>)

  function ValuesOf(env: seq<Binding>): (r: seq<Value>)
    ensures |r| == |env|
  {
    seq(|env|, i requires 0 <= i < |env| => env[i].value)
  }

  function Conf(w: World, x: Activation, ip: nat, temps: seq<Value>, st: Store): State {
    State(x.saved, Frame(ChunkOf(w.ar, x.items), ip, |x.below|), x.below + ValuesOf(st.env) + temps, st.globals,
        st.heap)
  }

  // What a run of n steps from s has to show for the evaluation of an expression list with result r.
  ghost predicate Sim(w: World, x: Activation, s: State, n: nat, r: Result<seq<Value>>, ip: nat, temps: seq<Value>,
      fuel: nat) {
    match r
    case Ok(vs, st) => Run(w, s, n) == Running(Conf(w, x, ip, temps + vs, st))
    case Stopped(Failure) => Run(w, s, n) == Outcome.Error
    case Stopped(OutOfFuel) => Run(w, s, n).Running? && n >= fuel
    case Stopped(Unclear) => true
  }

  function One(r: Result<Value>): Result<seq<Value>> {
    match r
    case Ok(v, st) => Ok([v], st)
    case Stopped(why) => Stopped(why)
  }

  // The outcome of a final instruction whose result is r.
  function Image(w: World, x: Activation, ip: nat, temps: seq<Value>, r: Result<Value>): Outcome {
    match r
    case Ok(v, st) => Running(Conf(w, x, ip, temps + [v], st))
    case Stopped(Failure) => Outcome.Error
    case Stopped(_) => Beyond
  }

  // Evaluating one part and then the rest: the runs are concatenated.
  lemma SimSeq(w: World, x: Activation, s: State, n: nat, s1: State, m: nat, r: Result<seq<Value>>, ip: nat,
      temps: seq<Value>, fuel: nat)
    requires Run(w, s, n) == Running(s1) && Sim(w, x, s1, m, r, ip, temps, fuel)
    ensures Sim(w, x, s, n + m, r, ip, temps, fuel)
  {
    RunAdd(w, s, n, m);
  }

  lemma RunStep(w: World, s: State, n: nat, s1: State)
    requires Run(w, s, n) == Running(s1)
    ensures Run(w, s, n + 1) == Step(w, s1)
  {
    hide Step;
    RunAdd(w, s, n, 1);
    match Step(w, s1)
    case Running(s2) => assert Run(w, s2, 0) == Running(s2);
    case _ =>
  }

  // The last instruction of an expression.
  lemma SimLast(w: World, x: Activation, s: State, n: nat, s1: State, r: Result<Value>, ip: nat, temps: seq<Value>,
      fuel: nat)
    requires Run(w, s, n) == Running(s1) && Step(w, s1) == Image(w, x, ip, temps, r)
    requires r != Stopped(OutOfFuel)
    ensures Sim(w, x, s, n + 1, One(r), ip, temps, fuel)
  {
    hide Step, Conf;
    RunStep(w, s, n, s1);
  }

  // ----- single instructions -----

  // Between items: the activation can fetch what its listing says.
  ghost predicate Wellformed(w: World, x: Activation) {
    Faithful(w.ar, x.items) && |x.saved| < FRAMES_MAX
  }

  lemma StepPlain(w: World, x: Activation, k: nat, i: Instr, temps: seq<Value>, st: Store)
    requires Wellformed(w, x) && At(x.items, k, [Plain(i)])
    ensures Offset(x.items, k + 1) == Offset(x.items, k) + Width(i)
    ensures Step(w, Conf(w, x, Offset(x.items, k), temps, st)) ==
        Execute(w, Conf(w, x, Offset(x.items, k + 1), temps, st), i)
  {
    hide Execute, Decode, ChunkOf, Faithful, ValuesOf;
    assert x.items[k] == x.items[k..k + 1][0];
    OffsetAdd(x.items, k, [Plain(i)]);
    assert Size([Plain(i)]) == Width(i) + Size([]);
    FetchItem(w.ar, x.items, k);
  }

  lemma StepConstant(w: World, x: Activation, k: nat, use: Use, v: Value, temps: seq<Value>, st: Store)
      returns (j: Short)
    requires Wellformed(w, x) && At(x.items, k, [WithConstant(use, v)])
    ensures Offset(x.items, k + 1) == Offset(x.items, k) + Width(InstrOf(use, j))
    ensures j < |ChunkOf(w.ar, x.items).constants| && ChunkOf(w.ar, x.items).constants[j] == v
    ensures Step(w, Conf(w, x, Offset(x.items, k), temps, st)) ==
            Execute(w, Conf(w, x, Offset(x.items, k + 1), temps, st), InstrOf(use, j))
  {
    hide Execute, Decode, ChunkOf, Faithful, ValuesOf;
    assert x.items[k] == x.items[k..k + 1][0];
    OffsetAdd(x.items, k, [WithConstant(use, v)]);
    assert Size([WithConstant(use, v)]) == ItemWidth(WithConstant(use, v)) + Size([]);
    FetchItem(w.ar, x.items, k);
    j :| j < |ChunkOf(w.ar, x.items).constants| && ChunkOf(w.ar, x.items).constants[j] == v
         && Decode(ChunkOf(w.ar, x.items), Offset(x.items, k)) == Some(InstrOf(use, j));
  }

  // Pushing the result of a primitive is what evaluation does with it.
  lemma PushImage(w: World, x: Activation, ip: nat, args: seq<Value>, temps: seq<Value>, st: Store,
      r: Res<(Value, Heap)>)
    ensures Push(Conf(w, x, ip, temps + args, st), x.below + ValuesOf(st.env) + temps, r) == Image(w, x, ip, temps,
        Lift(r, st))
  {
    match r
    case Done((v, heap)) =>
      assert x.below + ValuesOf(st.env) + temps + [v] == x.below + ValuesOf(st.env) + (temps + [v]);
    case _ =>
  }

  lemma PushValueImage(w: World, x: Activation, ip: nat, args: seq<Value>, temps: seq<Value>, st: Store, r: Res<Value>)
    ensures PushValue(Conf(w, x, ip, temps + args, st), x.below + ValuesOf(st.env) + temps, r) == Image(w, x, ip,
        temps, LiftValue(r, st))
  {
    match r
    case Done(v) =>
      assert x.below + ValuesOf(st.env) + temps + [v] == x.below + ValuesOf(st.env) + (temps + [v]);
    case _ =>
  }

  // The values on top of the stack.
  lemma TopOf(w: World, x: Activation, ip: nat, temps: seq<Value>, args: seq<Value>, st: Store)
    ensures var s, n := Conf(w, x, ip, temps + args, st).stack, |Conf(w, x, ip, temps + args, st).stack|;
            && n >= |args|
            && s[..n - |args|] == x.below + ValuesOf(st.env) + temps
            && s[n - |args|..] == args
            && forall i | 0 <= i < |args| :: s[n - |args| + i] == args[i]
  {
    var b, s := x.below + ValuesOf(st.env), Conf(w, x, ip, temps + args, st).stack;
    assert s == b + (temps + args);
    hide *;
    assert b + (temps + args) == (b + temps) + args;
    TopOfSeq(s, b + temps, args);
  }

  lemma TopOfSeq(s: seq<Value>, p: seq<Value>, args: seq<Value>)
    requires s == p + args
    ensures var n := |s| - |args|;
            n >= 0 && s[..n] == p && s[n..] == args && forall i | 0 <= i < |args| :: s[n + i] == args[i]
  {
  }
}

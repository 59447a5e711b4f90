/**
 Runs of the machine between the items of a listing, and how the runs of the operands of an expression
 and of its last instruction make up the run of the expression.
 */
module Runs {
  import opened Syntax
  import opened Arithmetic
  import opened Values
  import opened Primitives
  import opened Bytecode
  import opened Assembly
  import opened Codegen
  import opened Domain
  import opened Vm
  import opened Semantics
  import opened Scoping
  import opened Machine
  import opened Instructions

  // ----- runs between the items of a listing -----

  /** n steps from item k with the pending values temps evaluate to r, and if r is a list of values leave
      exactly those on top and the machine at item k2. */
  ghost predicate SimAt(w: World, x: Activation, k: nat, temps: seq<Value>, st: Store, n: nat, r: Result<seq<Value>>,
      k2: nat, fuel: nat) {
    && k <= |x.items| && k2 <= |x.items|
    && Sim(w, x, Conf(w, x, Offset(x.items, k), temps, st), n, r, Offset(x.items, k2), temps, fuel)
  }

  function Then(vs: seq<Value>, r: Result<seq<Value>>): Result<seq<Value>> {
    match r
    case Ok(us, st) => Ok(vs + us, st)
    case Stopped(why) => Stopped(why)
  }

  lemma Start(w: World, x: Activation, k: nat, temps: seq<Value>, st: Store, fuel: nat)
    requires k <= |x.items|
    ensures SimAt(w, x, k, temps, st, 0, Ok([], st), k, fuel)
  {
    hide Conf, Offset;
    assert temps + [] == temps;
  }

  lemma StopAt(w: World, x: Activation, k: nat, temps: seq<Value>, st: Store, n: nat, r: Result<seq<Value>>, k2: nat,
      k3: nat, fuel: nat)
    requires SimAt(w, x, k, temps, st, n, r, k2, fuel) && r.Stopped? && k3 <= |x.items|
    ensures SimAt(w, x, k, temps, st, n, r, k3, fuel)
  {
    hide Conf, Offset, Run;
  }

  lemma Seq(w: World, x: Activation, k: nat, temps: seq<Value>, st: Store, n: nat, vs: seq<Value>, st1: Store, k1: nat,
            m: nat, r: Result<seq<Value>>, k2: nat, fuel: nat)
    requires SimAt(w, x, k, temps, st, n, Ok(vs, st1), k1, fuel)
    requires SimAt(w, x, k1, temps + vs, st1, m, r, k2, fuel)
    ensures SimAt(w, x, k, temps, st, n + m, Then(vs, r), k2, fuel)
  {
    hide Conf, Offset, Run;
    var s := Conf(w, x, Offset(x.items, k), temps, st);
    var s1 := Conf(w, x, Offset(x.items, k1), temps + vs, st1);
    SimSeq(w, x, s, n, s1, m, r, Offset(x.items, k2), temps + vs, fuel);
    match r
    case Ok(us, st2) => assert temps + vs + us == temps + (vs + us);
    case _ =>
  }

  // The last instruction turns the values into the result.
  lemma Finish(w: World, x: Activation, k: nat, temps: seq<Value>, st: Store, n: nat, vs: seq<Value>, st1: Store,
      k1: nat, r: Result<Value>, fuel: nat)
    requires SimAt(w, x, k, temps, st, n, Ok(vs, st1), k1, fuel) && k1 < |x.items|
    requires Matches(w, x, Conf(w, x, Offset(x.items, k1), temps + vs, st1), Offset(x.items, k1 + 1), temps, r)
    requires r != Stopped(OutOfFuel)
    ensures SimAt(w, x, k, temps, st, n + 1, One(r), k1 + 1, fuel)
  {
    hide Conf, Offset, Run, Step, Image;
    if r != Stopped(Unclear) {
      SimLast(w, x, Conf(w, x, Offset(x.items, k), temps, st), n, Conf(w, x, Offset(x.items, k1), temps + vs, st1), r,
              Offset(x.items, k1 + 1), temps, fuel);
    }
  }

  // ----- expressions -----

  // Evaluation enters only functions in the domain, and the machine runs their compiled code.
  ghost predicate Sound(w: World) {
    && Exact(w.ar)
    && (forall f | w.admits(f) :: FitsFunction(w.ar, f) && w.codeOf(f) == ChunkOf(w.ar, FunctionCode(w.ar, f)))
  }

  ghost predicate Ready(w: World, x: Activation, k: nat, code: seq<Item>, sc: Scope, st: Store, pending: bool,
      temps: seq<Value>) {
    && Sound(w) && Wellformed(w, x) && |x.saved| < FRAMES_MAX && At(x.items, k, code)
    && Agrees(sc, st) && (!pending ==> temps == [])
  }

  lemma ReadyPart(w: World, x: Activation, k: nat, a: seq<Item>, b: seq<Item>, sc: Scope, st: Store, pending: bool,
      temps: seq<Value>)
    requires Ready(w, x, k, a + b, sc, st, pending, temps)
    ensures Ready(w, x, k, a, sc, st, pending, temps)
    ensures At(x.items, k + |a|, b) && k + |a| + |b| <= |x.items|
  {
    hide Sound, Wellformed, Agrees;
    AtSplit(x.items, k, a, b);
  }
}

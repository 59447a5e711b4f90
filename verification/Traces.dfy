/**
 Runs of the machine on a small listing, one instruction at a time with the whole stack spelled out.
 */
module Traces {
  import opened Syntax
  import opened Arithmetic
  import opened Values
  import opened Bytecode
  import opened Assembly
  import opened Vm
  import opened Semantics
  import opened Machine
  import opened Jumps

  // Before item k of the listing, in the only frame.
  function StateAt(w: World, p: seq<Item>, k: nat, stack: seq<Value>, globals: map<Name, Value>, heap: Heap): State
    requires k <= |p|
  {
    State([], Frame(ChunkOf(w.ar, p), Offset(p, k), 0), stack, globals, heap)
  }

  lemma StateIsConf(w: World, p: seq<Item>, k: nat, stack: seq<Value>, globals: map<Name, Value>, heap: Heap)
    requires k <= |p|
    ensures StateAt(w, p, k, stack, globals, heap) ==
            Conf(w, Activation(p, [], []), Offset(p, k), stack, Store([], globals, heap))
  {
    hide Offset, ChunkOf;
    assert [] + ValuesOf([]) + stack == stack;
  }

  // n steps after s0.
  ghost predicate Reaches(w: World, s0: State, n: nat, p: seq<Item>, k: nat, stack: seq<Value>,
                          globals: map<Name, Value>, heap: Heap)
  {
    k <= |p| && Run(w, s0, n) == Running(StateAt(w, p, k, stack, globals, heap))
  }

  lemma Begins(w: World, p: seq<Item>, globals: map<Name, Value>, heap: Heap)
    ensures var s0 := State([], Frame(ChunkOf(w.ar, p), 0, 0), [], globals, heap);
            Reaches(w, s0, 0, p, 0, [], globals, heap)
  {
    assert p[..0] == [];
  }

  lemma {:induction false} PlainStep(w: World, s0: State, n: nat, p: seq<Item>, k: nat, stack: seq<Value>,
                                     globals: map<Name, Value>, heap: Heap, i: Instr)
    requires Faithful(w.ar, p) && Reaches(w, s0, n, p, k, stack, globals, heap) && k < |p| && p[k] == Plain(i)
    ensures Run(w, s0, n + 1) == Execute(w, StateAt(w, p, k + 1, stack, globals, heap), i)
  {
    hide Faithful, Step, Execute, Conf, Offset, Run;
    assert p[k..k + 1] == [Plain(i)];
    StateIsConf(w, p, k, stack, globals, heap);
    StateIsConf(w, p, k + 1, stack, globals, heap);
    StepPlain(w, Activation(p, [], []), k, i, stack, Store([], globals, heap));
    RunStep(w, s0, n, StateAt(w, p, k, stack, globals, heap));
  }

  lemma {:induction false} ConstantStep(w: World, s0: State, n: nat, p: seq<Item>, k: nat, stack: seq<Value>,
                                        globals: map<Name, Value>, heap: Heap, use: Use, v: Value) returns (j: Short)
    requires Faithful(w.ar, p) && Reaches(w, s0, n, p, k, stack, globals, heap) && k < |p|
    requires p[k] == WithConstant(use, v)
    ensures j < |ChunkOf(w.ar, p).constants| && ChunkOf(w.ar, p).constants[j] == v
    ensures Run(w, s0, n + 1) == Execute(w, StateAt(w, p, k + 1, stack, globals, heap), InstrOf(use, j))
  {
    hide Faithful, Step, Execute, Conf, Offset, Run;
    assert p[k..k + 1] == [WithConstant(use, v)];
    StateIsConf(w, p, k, stack, globals, heap);
    StateIsConf(w, p, k + 1, stack, globals, heap);
    j := StepConstant(w, Activation(p, [], []), k, use, v, stack, Store([], globals, heap));
    RunStep(w, s0, n, StateAt(w, p, k, stack, globals, heap));
  }

  lemma {:induction false} Loads(w: World, s0: State, n: nat, p: seq<Item>, k: nat, stack: seq<Value>,
                                 globals: map<Name, Value>, heap: Heap, v: Value)
    requires Faithful(w.ar, p) && Reaches(w, s0, n, p, k, stack, globals, heap) && k < |p|
    requires p[k] == WithConstant(Load, v)
    ensures Reaches(w, s0, n + 1, p, k + 1, stack + [v], globals, heap)
  {
    hide Faithful, Offset, Run, ChunkOf;
    var j := ConstantStep(w, s0, n, p, k, stack, globals, heap, Load, v);
  }

  lemma {:induction false} Sets(w: World, s0: State, n: nat, p: seq<Item>, k: nat, stack: seq<Value>,
                                globals: map<Name, Value>, heap: Heap, x: Name)
    requires Faithful(w.ar, p) && Reaches(w, s0, n, p, k, stack, globals, heap) && k < |p| && stack != []
    requires p[k] == WithConstant(WriteGlobal, Text(x))
    ensures Reaches(w, s0, n + 1, p, k + 1, stack, globals[x := stack[|stack| - 1]], heap)
  {
    hide Faithful, Offset, Run, ChunkOf;
    var j := ConstantStep(w, s0, n, p, k, stack, globals, heap, WriteGlobal, Text(x));
  }

  lemma {:induction false} Pops1(w: World, s0: State, n: nat, p: seq<Item>, k: nat, stack: seq<Value>,
                                 globals: map<Name, Value>, heap: Heap, v: Value)
    requires Faithful(w.ar, p) && Reaches(w, s0, n, p, k, stack + [v], globals, heap) && k < |p| && p[k] == Plain(Pop)
    ensures Reaches(w, s0, n + 1, p, k + 1, stack, globals, heap)
  {
    hide Faithful, Offset, Run, ChunkOf;
    PlainStep(w, s0, n, p, k, stack + [v], globals, heap, Pop);
    assert (stack + [v])[..|stack|] == stack;
  }

  lemma {:induction false} Dups(w: World, s0: State, n: nat, p: seq<Item>, k: nat, stack: seq<Value>,
                                globals: map<Name, Value>, heap: Heap, v: Value)
    requires Faithful(w.ar, p) && Reaches(w, s0, n, p, k, stack + [v], globals, heap) && k < |p| && p[k] == Plain(Dup)
    ensures Reaches(w, s0, n + 1, p, k + 1, stack + [v, v], globals, heap)
  {
    hide Faithful, Offset, Run, ChunkOf;
    PlainStep(w, s0, n, p, k, stack + [v], globals, heap, Dup);
    assert stack + [v] + [v] == stack + [v, v];
  }

  lemma {:induction false} Pushes(w: World, s0: State, n: nat, p: seq<Item>, k: nat, stack: seq<Value>,
                                  globals: map<Name, Value>, heap: Heap, i: Instr, v: Value)
    requires Faithful(w.ar, p) && Reaches(w, s0, n, p, k, stack, globals, heap) && k < |p| && p[k] == Plain(i)
    requires || (i == PushNull && v == Null) || (i == PushTrue && v == Bool(true))
             || (i.GetLocal? && i.slot as int < |stack| && v == stack[i.slot])
    ensures Reaches(w, s0, n + 1, p, k + 1, stack + [v], globals, heap)
  {
    hide Faithful, Offset, Run, ChunkOf;
    PlainStep(w, s0, n, p, k, stack, globals, heap, i);
  }

  // A jump that is taken or, for a condition that holds, not taken.
  lemma {:induction false} Jumps1(w: World, s0: State, n: nat, p: seq<Item>, k: nat, stack: seq<Value>,
                                  globals: map<Name, Value>, heap: Heap, o: Short, j: nat)
    requires Faithful(w.ar, p) && Reaches(w, s0, n, p, k, stack, globals, heap) && k < j <= |p|
    requires p[k] == Plain(Jump(o)) && Offset(p, j) == Offset(p, k + 1) + o
    ensures Reaches(w, s0, n + 1, p, j, stack, globals, heap)
  {
    hide Faithful, Offset, Run, ChunkOf;
    PlainStep(w, s0, n, p, k, stack, globals, heap, Jump(o));
  }

  lemma {:induction false} GoesOn(w: World, s0: State, n: nat, p: seq<Item>, k: nat, stack: seq<Value>,
                                  globals: map<Name, Value>, heap: Heap, o: Short)
    requires Faithful(w.ar, p) && Reaches(w, s0, n, p, k, stack + [Bool(true)], globals, heap) && k < |p|
    requires p[k] == Plain(PopJumpIfFalse(o))
    ensures Reaches(w, s0, n + 1, p, k + 1, stack, globals, heap)
  {
    hide Faithful, Offset, Run, ChunkOf;
    PlainStep(w, s0, n, p, k, stack + [Bool(true)], globals, heap, PopJumpIfFalse(o));
    assert (stack + [Bool(true)])[..|stack|] == stack;
  }

  // The condition does not hold.
  lemma {:induction false} JumpsOff(w: World, s0: State, n: nat, p: seq<Item>, k: nat, stack: seq<Value>,
                                    globals: map<Name, Value>, heap: Heap, o: Short, j: nat)
    requires Faithful(w.ar, p) && Reaches(w, s0, n, p, k, stack + [Null], globals, heap) && k < j <= |p|
    requires p[k] == Plain(PopJumpIfFalse(o)) && Offset(p, j) == Offset(p, k + 1) + o
    ensures Reaches(w, s0, n + 1, p, j, stack, globals, heap)
  {
    hide Faithful, Offset, Run, ChunkOf;
    PlainStep(w, s0, n, p, k, stack + [Null], globals, heap, PopJumpIfFalse(o));
    assert (stack + [Null])[..|stack|] == stack;
  }

  lemma {:induction false} Returns(w: World, s0: State, n: nat, p: seq<Item>, k: nat, stack: seq<Value>,
                                   globals: map<Name, Value>, heap: Heap, v: Value)
    requires Faithful(w.ar, p) && Reaches(w, s0, n, p, k, stack + [v], globals, heap) && k < |p|
        && p[k] == Plain(ReturnOp)
    ensures Run(w, s0, n + 1) == Halted(v, globals, heap)
  {
    hide Faithful, Offset, Run, ChunkOf;
    PlainStep(w, s0, n, p, k, stack + [v], globals, heap, ReturnOp);
  }

  // ----- small listings can be fetched -----

  predicate Simple(p: seq<Item>, a: Value, b: Value) {
    && |p| <= 100
    && forall it | it in p ::
         || (it.Plain? && !it.i.MakeClosure?)
         || (it.WithConstant? && !it.use.Close? && (it.v == a || it.v == b))
  }

  lemma {:induction false} SmallFaithful(ar: Arith, p: seq<Item>, a: Value, b: Value)
    requires Simple(p, a, b) && !SameConstant(ar, a, b) && !SameConstant(ar, b, a)
    ensures Faithful(ar, p)
  {
    hide SameConstant, Assemble;
    SmallSize(p, a, b);
    FewConstants(ar, EMPTY, p);
  }

  lemma {:induction false} SmallSize(p: seq<Item>, a: Value, b: Value)
    requires Simple(p, a, b)
    ensures Size(p) <= 5 * |p|
  {
    if p != [] {
      assert p[0] in p;
      SmallSize(p[1..], a, b);
    }
  }

  lemma {:induction false} FewConstants(ar: Arith, c: Chunk, p: seq<Item>)
    ensures |Assemble(ar, c, p).constants| <= |c.constants| + |p|
    decreases |p|
  {
    hide Encode;
    if p != [] {
      FewConstants(ar, PutItem(ar, c, p[0]), p[1..]);
    }
  }
}

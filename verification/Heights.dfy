/**
 The layout of the stack holds at every step: wherever a run of compiled code is, each frame has above its base
 exactly the locals and pending values that the compiler counted there.
 */
module Heights {
  import opened Syntax
  import opened Arithmetic
  import opened Values
  import opened Primitives
  import opened Bytecode
  import opened Assembly
  import opened Codegen
  import opened Domain
  import opened Vm
  import opened Correctness
  import opened Jumps
  import opened Layout
  import B = Bisimulation

  // ----- single instructions -----

  // The operator of a compound assignment does not take these operands.
  predicate Fails(w: World, heap: Heap, op: Byte, l: Value, r: Value) {
    OpOf(op).Some? && Math(w.ar, heap, OpOf(op).value, l, r).Failed?
  }

  // The next instruction is a compound assignment to a variable whose operator fails.
  predicate OperatorFails(w: World, s: State) {
    var n := |s.stack|;
    match Decode(s.frame.code, s.frame.ip)
    case Some(SetLocalWithMath(op, slot)) =>
      var at := s.frame.base + slot;
      at < n - 1 && Fails(w, s.heap, op, s.stack[at], s.stack[n - 1])
    case Some(SetGlobalWithMath(op, k)) =>
      var x := ConstantName(s, k);
      n >= 1 && x.Some? && x.value in s.globals && Fails(w, s.heap, op, s.globals[x.value], s.stack[n - 1])
    case _ => false
  }

  // The instruction stays in its frame and goes on to the next.
  predicate Steady(i: Instr) {
    !IsJump(i) && !i.CallOp? && !i.ReturnOp?
  }

  predicate Changes(s: State, o: Outcome, change: int) {
    o.Running? ==> o.s.saved == s.saved && o.s.frame == s.frame && |o.s.stack| == |s.stack| + change
  }

  lemma SteadyLocal(w: World, s: State, i: Instr)
    requires i.GetLocal? || i.SetLocal? || i.SetLocalWithMath?
    requires var at, n := s.frame.base + i.slot, |s.stack|;
             i.SetLocalWithMath? && at < n - 1 ==> !Fails(w, s.heap, i.op, s.stack[at], s.stack[n - 1])
    ensures Changes(s, ExecuteLocal(w, s, i), InstrEffect(i).change)
  {
    hide Math, OpOf;
  }

  lemma SteadyGlobal(w: World, s: State, i: Instr)
    requires i.GetGlobal? || i.SetGlobal? || i.SetGlobalWithMath?
    requires var x, n := ConstantName(s, i.k), |s.stack|;
             i.SetGlobalWithMath? && n >= 1 && x.Some? && x.value in s.globals ==>
               !Fails(w, s.heap, i.op, s.globals[x.value], s.stack[n - 1])
    ensures Changes(s, ExecuteGlobal(w, s, i), InstrEffect(i).change)
  {
    hide Math, OpOf, ConstantName;
  }

  lemma SteadySubscript(w: World, s: State, i: Instr)
    requires i.GetSub? || i.SetSub? || i.SetSubWithMath?
    ensures Changes(s, ExecuteSubscript(w, s, i), InstrEffect(i).change)
  {
    hide GetSubscript, SetSubscript, UpdateSubscript, OpOf;
  }

  lemma SteadySlice(w: World, s: State, i: Instr)
    requires i.MakeSlice? || i.MakeSliceAbove? || i.MakeSliceUnder? || i.CopyBySlicing?
    ensures Changes(s, ExecuteSlice(w, s, i), InstrEffect(i).change)
  {
    hide SliceOf;
  }

  lemma SteadyOther(w: World, s: State, i: Instr)
    requires Steady(i) && !i.GetLocal? && !i.SetLocal? && !i.SetLocalWithMath? && !i.GetGlobal? && !i.SetGlobal?
        && !i.SetGlobalWithMath?
    requires !i.GetSub? && !i.SetSub? && !i.SetSubWithMath?
    requires !i.MakeSlice? && !i.MakeSliceAbove? && !i.MakeSliceUnder? && !i.CopyBySlicing?
    ensures Changes(s, Execute(w, s, i), InstrEffect(i).change)
  {
    hide ApplyUnary, Apply, NewMap, NewArray;
  }

  lemma {:induction false} SteadyStep(w: World, s: State, s1: State, i: Instr)
    requires Decode(s.frame.code, s.frame.ip) == Some(i) && Steady(i) && !OperatorFails(w, s) && s1 == Advance(s, i)
    ensures Changes(s1, Execute(w, s1, i), InstrEffect(i).change)
  {
    hide Decode, Execute, ExecuteLocal, ExecuteGlobal, ExecuteSubscript, ExecuteSlice, Changes, InstrEffect, Fails;
    B.Delegates(w, s1, i);
    if i.GetLocal? || i.SetLocal? || i.SetLocalWithMath? {
      SteadyLocal(w, s1, i);
    } else if i.GetGlobal? || i.SetGlobal? || i.SetGlobalWithMath? {
      SteadyGlobal(w, s1, i);
    } else if i.GetSub? || i.SetSub? || i.SetSubWithMath? {
      SteadySubscript(w, s1, i);
    } else if i.MakeSlice? || i.MakeSliceAbove? || i.MakeSliceUnder? || i.CopyBySlicing? {
      SteadySlice(w, s1, i);
    } else {
      SteadyOther(w, s1, i);
    }
  }

  // ----- frames on their layouts -----

  // The top level of a file, or a function.
  datatype Unit = Main | Of(f: Function)

  function UnitCode(ar: Arith, program: seq<Stmt>, u: Unit): seq<Item> {
    if u.Main? then ProgramCode(ar, program) else FunctionCode(ar, u.f)
  }

  function UnitLayout(program: seq<Stmt>, u: Unit): seq<Spot> {
    if u.Main? then ProgramLayout(program) else FunctionLayout(u.f)
  }

  function UnitOut(u: Unit): nat {
    if u.Main? then 0 else |ScopeS(Scope(false, u.f.params), u.f.code).names|
  }

  // Frames run code that the compiler emits, or none.
  ghost predicate Compiles(w: World) {
    forall f :: w.codeOf(f) == EMPTY || (FitsFunction(w.ar, f) && w.codeOf(f) == ChunkOf(w.ar, FunctionCode(w.ar, f)))
  }

  // The frame is at item k of this unit, or at its end, with h values above its base.
  ghost predicate Stands(w: World, program: seq<Stmt>, fr: Frame, h: int, u: Unit, k: nat) {
    var items, lay := UnitCode(w.ar, program, u), UnitLayout(program, u);
    && (u.Of? ==> FitsFunction(w.ar, u.f))
    && k <= |items| == |lay| && fr.code == ChunkOf(w.ar, items) && fr.ip == Offset(items, k)
    && h == HeightAt(lay, UnitOut(u), k)
  }

  // The frame runs this unit; a function that the world has no code for runs none.
  ghost predicate OnLayout(w: World, program: seq<Stmt>, fr: Frame, h: int, u: Unit) {
    || (u.Of? && w.codeOf(u.f) == EMPTY && fr.code == EMPTY)
    || exists k: nat :: Stands(w, program, fr, h, u, k)
  }

  /** Every frame is on the layout of its unit, where n is the height of the stack; a suspended frame will be, once
      the frame above it has given way to its result. The units are those of the frames, the innermost last. */
  ghost predicate LaidOut(w: World, program: seq<Stmt>, us: seq<Unit>, saved: seq<Frame>, fr: Frame, n: nat)
    decreases |saved|
  {
    && |us| == |saved| + 1 && fr.base <= n && OnLayout(w, program, fr, n - fr.base, us[|us| - 1])
    && (saved != [] ==>
          LaidOut(w, program, us[..|us| - 1], saved[..|saved| - 1], saved[|saved| - 1], fr.base + 1))
  }

  ghost predicate StateLaidOut(w: World, program: seq<Stmt>, us: seq<Unit>, s: State) {
    LaidOut(w, program, us, s.saved, s.frame, |s.stack|)
  }

  // The units of the frames after a step: a call adds the function that was called, a return drops the last.
  function UnitsNext(us: seq<Unit>, s: State, t: State): seq<Unit> {
    if |t.saved| > |s.saved| then us + (if CalleeOf(s).Some? then [Of(CalleeOf(s).value)] else [])
    else if |t.saved| < |s.saved| && us != [] then us[..|us| - 1]
    else us
  }

  // The function on top of the stack.
  function CalleeOf(s: State): Option<Function> {
    if s.stack != [] && s.stack[|s.stack| - 1].Closure? then Some(s.stack[|s.stack| - 1].f) else None
  }

  // The units of the frames after n steps of a program.
  function UnitsAt(w: World, s0: State, n: nat): seq<Unit>
    decreases n
  {
    if n == 0 then [Main]
    else
      var us, s, t := UnitsAt(w, s0, n - 1), Run(w, s0, n - 1), Run(w, s0, n);
      if s.Running? && t.Running? then UnitsNext(us, s.s, t.s) else us
  }

  lemma {:induction false} UnitKeeps(w: World, program: seq<Stmt>, u: Unit)
    requires FitsProgram(w.ar, program) && (u.Of? ==> FitsFunction(w.ar, u.f))
    ensures var items, lay := UnitCode(w.ar, program, u), UnitLayout(program, u);
            && Faithful(w.ar, items) && Flows(items, lay, UnitOut(u)) && HoleFree(items)
            && HeightAt(lay, UnitOut(u), 0) == if u.Main? then 0 else |u.f.params|
  {
    hide Flows, HoleFree, FunctionCode, ProgramCode, FunctionLayout, ProgramLayout, Faithful, FitsS;
    if u.Main? {
      ProgramKeepsLayout(w.ar, program);
    } else {
      FunctionKeepsLayout(w.ar, u.f);
    }
  }

  // ----- one step -----

  // What a frame on its layout executes next.
  ghost predicate At(w: World, items: seq<Item>, lay: seq<Spot>, out: nat, s: State, k: nat, i: Instr) {
    && k < |items| == |lay| && HoleFree(items) && FlowsAt(items, lay, out, k)
    && Decode(s.frame.code, s.frame.ip) == Some(i) && EffectOf(items[k]) == InstrEffect(i)
    && s.frame.ip == Offset(items, k) && Offset(items, k + 1) == s.frame.ip + Width(i)
    && (items[k].Plain? ==> items[k].i == i) && (items[k].WithConstant? ==> Steady(i))
  }

  lemma {:induction false} Fetching(w: World, program: seq<Stmt>, s: State, h: int, u: Unit, k: nat) returns (i: Instr)
    requires FitsProgram(w.ar, program) && Stands(w, program, s.frame, h, u, k)
        && Decode(s.frame.code, s.frame.ip).Some?
    ensures k < |UnitCode(w.ar, program, u)|
    ensures At(w, UnitCode(w.ar, program, u), UnitLayout(program, u), UnitOut(u), s, k, i)
  {
    hide UnitCode, UnitLayout, UnitOut, Decode, ChunkOf, Faithful, FlowsAt, FitsFunction, FitsProgram;
    var items := UnitCode(w.ar, program, u);
    UnitKeeps(w, program, u);
    if k == |items| {
      NothingThere(w, items, s);
    }
    FetchItem(w.ar, items, k);
    OffsetNext(items, k);
    assert items[k] in items;
    if items[k].Plain? {
      i := items[k].i;
    } else {
      var j: Short :| Decode(s.frame.code, s.frame.ip) == Some(InstrOf(items[k].use, j));
      i := InstrOf(items[k].use, j);
    }
  }

  lemma {:induction false} NothingThere(w: World, items: seq<Item>, s: State)
    requires s.frame.code == ChunkOf(w.ar, items) && s.frame.ip == Offset(items, |items|)
    ensures Decode(s.frame.code, s.frame.ip) == None
  {
    hide Assemble, Size;
    AssembleGrows(w.ar, EMPTY, items);
    assert items[..|items|] == items;
  }

  lemma NoCode(w: World, s: State)
    requires s.frame.code == EMPTY
    ensures Decode(s.frame.code, s.frame.ip) == None
  {
  }

  lemma Decoded(w: World, s: State)
    requires Step(w, s).Running?
    ensures Decode(s.frame.code, s.frame.ip).Some?
    ensures Step(w, s) == Execute(w, Advance(s, Decode(s.frame.code, s.frame.ip).value),
                              Decode(s.frame.code, s.frame.ip).value)
  {
    hide Decode, Execute;
  }

  /** One step keeps every frame on its layout. */
  lemma {:induction false} StepLaidOut(w: World, program: seq<Stmt>, us: seq<Unit>, s: State, t: State)
    requires Compiles(w) && FitsProgram(w.ar, program) && StateLaidOut(w, program, us, s)
    requires !OperatorFails(w, s) && Step(w, s) == Running(t)
    ensures StateLaidOut(w, program, UnitsNext(us, s, t), t)
  {
    hide OperatorFails, Step, Execute, Decode, Compiles, FitsProgram, Stands, At, UnitsNext;
    Decoded(w, s);
    if s.frame.code == EMPTY {
      NoCode(w, s);
    }
    var h, u := |s.stack| - s.frame.base, us[|us| - 1];
    var k: nat :| Stands(w, program, s.frame, h, u, k);
    var i := Fetching(w, program, s, h, u, k);
    AtDecode(w, program, s, u, k, i);
    if Steady(i) {
      SteadyLaidOut(w, program, us, s, t, k, i);
    } else if i.CallOp? {
      CallLaidOut(w, program, us, s, t, k, i);
    } else if i.ReturnOp? {
      ReturnLaidOut(w, program, us, s, t, i);
    } else {
      JumpLaidOut(w, program, us, s, t, k, i);
    }
  }

  lemma AtDecode(w: World, program: seq<Stmt>, s: State, u: Unit, k: nat, i: Instr)
    requires At(w, UnitCode(w.ar, program, u), UnitLayout(program, u), UnitOut(u), s, k, i)
    ensures Decode(s.frame.code, s.frame.ip) == Some(i)
  {
    hide UnitCode, UnitLayout, UnitOut, Decode;
  }

  // The frame stands somewhere else on the same layout.
  lemma {:induction false} SameFrames(w: World, program: seq<Stmt>, us: seq<Unit>, s: State, t: State, k: nat)
    requires StateLaidOut(w, program, us, s) && t.saved == s.saved && t.frame.base == s.frame.base <= |t.stack|
    requires Stands(w, program, t.frame, |t.stack| - t.frame.base, us[|us| - 1], k)
    ensures StateLaidOut(w, program, UnitsNext(us, s, t), t)
  {
    hide Stands;
  }

  lemma {:induction false} SteadyLaidOut(w: World, program: seq<Stmt>, us: seq<Unit>, s: State, t: State, k: nat,
      i: Instr)
    requires StateLaidOut(w, program, us, s) && Steady(i)
    requires Stands(w, program, s.frame, |s.stack| - s.frame.base, us[|us| - 1], k)
    requires var u := us[|us| - 1]; At(w, UnitCode(w.ar, program, u), UnitLayout(program, u), UnitOut(u), s, k, i)
    requires !OperatorFails(w, s) && Execute(w, Advance(s, i), i) == Running(t)
    ensures StateLaidOut(w, program, UnitsNext(us, s, t), t)
  {
    hide OperatorFails, Execute, Decode, UnitCode, UnitLayout, UnitOut, InstrEffect, ChunkOf, Offset, FitsFunction,
        UnitsNext;
    var s1 := Advance(s, i);
    SteadyStep(w, s, s1, i);
    assert Stands(w, program, t.frame, |t.stack| - t.frame.base, us[|us| - 1], k + 1);
    SameFrames(w, program, us, s, t, k + 1);
  }

  lemma {:induction false} JumpLaidOut(w: World, program: seq<Stmt>, us: seq<Unit>, s: State, t: State, k: nat,
      i: Instr)
    requires StateLaidOut(w, program, us, s) && IsJump(i)
    requires Stands(w, program, s.frame, |s.stack| - s.frame.base, us[|us| - 1], k)
    requires var u := us[|us| - 1]; At(w, UnitCode(w.ar, program, u), UnitLayout(program, u), UnitOut(u), s, k, i)
    requires Execute(w, Advance(s, i), i) == Running(t)
    ensures StateLaidOut(w, program, UnitsNext(us, s, t), t)
  {
    hide Execute, Decode, UnitCode, UnitLayout, UnitOut, ChunkOf, Offset, FitsFunction, UnitsNext;
    var u := us[|us| - 1];
    var items, lay, s1 := UnitCode(w.ar, program, u), UnitLayout(program, u), Advance(s, i);
    B.JumpExecutes(w, s1, i);
    assert JumpAt(items, k);
    var j: nat :| Arrives(items, lay, UnitOut(u), k, j);
    LandsInside(items, k, j);
    var target := if B.Taken(w, s1, i) then j else k + 1;
    assert Stands(w, program, t.frame, |t.stack| - t.frame.base, u, target);
    SameFrames(w, program, us, s, t, target);
  }

  // What a call that goes on leaves.
  lemma CallShape(w: World, s: State, argc: Byte, t: State) returns (f: Option<Function>)
    requires ExecuteCall(w, s, argc) == Running(t)
    ensures |s.stack| >= 1 + argc && (f.Some? ==> f == CalleeOf(s))
    ensures match f
            case None => t.saved == s.saved && t.frame == s.frame && |t.stack| == |s.stack| - argc
            case Some(g) =>
              && t.saved == s.saved + [s.frame] && t.frame == Frame(w.codeOf(g), 0, |s.stack| - 1 - argc)
              && |t.stack| == |s.stack| - 1 && |g.params| == argc
  {
    var callee := s.stack[|s.stack| - 1];
    f := if callee.Closure? then Some(callee.f) else None;
  }

  lemma {:induction false} CallLaidOut(w: World, program: seq<Stmt>, us: seq<Unit>, s: State, t: State, k: nat,
      i: Instr)
    requires Compiles(w) && FitsProgram(w.ar, program) && i.CallOp?
    requires StateLaidOut(w, program, us, s)
        && Stands(w, program, s.frame, |s.stack| - s.frame.base, us[|us| - 1], k)
    requires var u := us[|us| - 1]; At(w, UnitCode(w.ar, program, u), UnitLayout(program, u), UnitOut(u), s, k, i)
    requires Execute(w, Advance(s, i), i) == Running(t)
    ensures StateLaidOut(w, program, UnitsNext(us, s, t), t)
  {
    hide Execute, ExecuteCall, Decode, UnitCode, UnitLayout, UnitOut, ChunkOf, Offset, FitsFunction, FitsProgram,
        Compiles;
    var s1, n, u := Advance(s, i), |s.stack|, us[|us| - 1];
    B.Moves(w, s1, i);
    var f := CallShape(w, s1, i.argc, t);
    assert EffectOf(UnitCode(w.ar, program, u)[k]) == Effect(i.argc + 1, 0 - i.argc);
    assert Stands(w, program, s1.frame, n - i.argc - s.frame.base, u, k + 1);
    hide Stands, At;
    assert LaidOut(w, program, us, s.saved, s1.frame, n - i.argc);
    if f.Some? {
      assert CalleeOf(s1) == CalleeOf(s);
      Entered(w, program, f.value, t.frame);
      Suspended(w, program, us, s.saved, s1.frame, Of(f.value), t.saved, t.frame, |t.stack|);
    }
  }

  // A frame over a frame that is on its layout.
  lemma {:induction false} Suspended(w: World, program: seq<Stmt>, us: seq<Unit>, saved: seq<Frame>, fr: Frame,
      u: Unit, saved': seq<Frame>, fr': Frame, n: nat)
    requires LaidOut(w, program, us, saved, fr, fr'.base + 1) && saved' == saved + [fr] && fr'.base <= n
    requires OnLayout(w, program, fr', n - fr'.base, u)
    ensures LaidOut(w, program, us + [u], saved', fr', n)
  {
    hide OnLayout;
    assert saved'[..|saved'| - 1] == saved && saved'[|saved'| - 1] == fr;
    assert (us + [u])[..|us|] == us;
  }

  lemma {:induction false} Entered(w: World, program: seq<Stmt>, f: Function, fr: Frame)
    requires Compiles(w) && FitsProgram(w.ar, program) && fr.code == w.codeOf(f) && fr.ip == 0
    ensures OnLayout(w, program, fr, |f.params|, Of(f))
  {
    hide UnitCode, UnitLayout, UnitOut, ChunkOf, FitsFunction, FitsProgram, Faithful, FlowsAt, FunctionCode;
    if fr.code != EMPTY {
      var u := Of(f);
      UnitKeeps(w, program, u);
      Start(w, program, u, fr);
      assert Stands(w, program, fr, |f.params|, u, 0);
    }
  }

  lemma Start(w: World, program: seq<Stmt>, u: Unit, fr: Frame)
    requires fr.ip == 0
    ensures fr.ip == Offset(UnitCode(w.ar, program, u), 0)
    ensures u.Of? ==> UnitCode(w.ar, program, u) == FunctionCode(w.ar, u.f)
  {
    assert UnitCode(w.ar, program, u)[..0] == [];
  }

  lemma {:induction false} ReturnLaidOut(w: World, program: seq<Stmt>, us: seq<Unit>, s: State, t: State, i: Instr)
    requires StateLaidOut(w, program, us, s) && i.ReturnOp? && Execute(w, Advance(s, i), i) == Running(t)
    ensures StateLaidOut(w, program, UnitsNext(us, s, t), t)
  {
    hide Execute, OnLayout;
    B.Moves(w, Advance(s, i), i);
  }

  // ----- whole runs -----

  // No compound assignment to a variable has failed before step n.
  ghost predicate NoFailureBefore(w: World, s: State, n: nat) {
    forall m: nat | m < n && Run(w, s, m).Running? :: !OperatorFails(w, Run(w, s, m).s)
  }

  /** At every step of a run of a program each frame has above its base exactly the locals and pending values that
      the layout of its own function counts at the instruction where it is, unless the operator of a compound
      assignment to a variable has failed before. */
  lemma {:induction false} RunLaidOut(w: World, program: seq<Stmt>, globals: map<Name, Value>, heap: Heap, n: nat)
    requires Compiles(w) && FitsProgram(w.ar, program)
    requires NoFailureBefore(w, Initial(w, program, globals, heap), n)
        && Run(w, Initial(w, program, globals, heap), n).Running?
    ensures var s0 := Initial(w, program, globals, heap);
            StateLaidOut(w, program, UnitsAt(w, s0, n), Run(w, s0, n).s)
    decreases n
  {
    hide Initial, Compiles, FitsProgram, StateLaidOut, OperatorFails, Step, UnitsNext;
    var s0 := Initial(w, program, globals, heap);
    if n == 0 {
      InitialLaidOut(w, program, globals, heap);
    } else {
      RunAdd(w, s0, n - 1, 1);
      assert Run(w, s0, n - 1).Running?;
      RunLaidOut(w, program, globals, heap, n - 1);
      var s := Run(w, s0, n - 1).s;
      OneMoreStep(w, s);
      StepLaidOut(w, program, UnitsAt(w, s0, n - 1), s, Run(w, s0, n).s);
    }
  }

  lemma OneMoreStep(w: World, s: State)
    ensures Run(w, s, 1) == Step(w, s)
  {
    hide Step;
    assert Step(w, s).Running? ==> Run(w, Step(w, s).s, 0) == Step(w, s);
  }

  lemma {:induction false} InitialLaidOut(w: World, program: seq<Stmt>, globals: map<Name, Value>, heap: Heap)
    requires FitsProgram(w.ar, program)
    ensures StateLaidOut(w, program, [Main], Initial(w, program, globals, heap))
  {
    hide UnitCode, UnitLayout, UnitOut, ChunkOf, FitsProgram, Faithful, FlowsAt, ProgramCode;
    var s := Initial(w, program, globals, heap);
    MainStands(w, program, s.frame);
    hide Stands;
    assert OnLayout(w, program, s.frame, 0, Main);
  }

  lemma {:induction false} MainStands(w: World, program: seq<Stmt>, fr: Frame)
    requires FitsProgram(w.ar, program) && fr == Frame(ChunkOf(w.ar, ProgramCode(w.ar, program)), 0, 0)
    ensures Stands(w, program, fr, 0, Main, 0)
  {
    hide UnitCode, UnitLayout, UnitOut, ChunkOf, FitsProgram, Faithful, FlowsAt, ProgramCode;
    UnitKeeps(w, program, Main);
    Start(w, program, Main, fr);
    MainCode(w, program);
  }

  lemma MainCode(w: World, program: seq<Stmt>)
    ensures UnitCode(w.ar, program, Main) == ProgramCode(w.ar, program)
  {
    hide ProgramCode;
  }

  /** So the next instruction, where there is one, finds its operands above the base of its frame: it never reads or
      drops a value of a caller, nor one that is not there. */
  lemma {:induction false} OperandsThere(w: World, program: seq<Stmt>, globals: map<Name, Value>, heap: Heap, n: nat)
    requires Compiles(w) && FitsProgram(w.ar, program)
    requires NoFailureBefore(w, Initial(w, program, globals, heap), n)
        && Run(w, Initial(w, program, globals, heap), n).Running?
    ensures var s := Run(w, Initial(w, program, globals, heap), n).s;
            var i := Decode(s.frame.code, s.frame.ip);
            i.Some? ==> s.frame.base + InstrEffect(i.value).need <= |s.stack|
  {
    hide Initial, Compiles, FitsProgram, OperatorFails, Step, Run, Stands, Decode, UnitsAt;
    var s0 := Initial(w, program, globals, heap);
    var s, us := Run(w, s0, n).s, UnitsAt(w, s0, n);
    RunLaidOut(w, program, globals, heap, n);
    if Decode(s.frame.code, s.frame.ip).Some? {
      if s.frame.code == EMPTY {
        NoCode(w, s);
      }
      var h, u := |s.stack| - s.frame.base, us[|us| - 1];
      var k: nat :| Stands(w, program, s.frame, h, u, k);
      var i := Fetching(w, program, s, h, u, k);
      Enough(w, program, s, h, u, k, i);
    }
  }

  lemma Enough(w: World, program: seq<Stmt>, s: State, h: int, u: Unit, k: nat, i: Instr)
    requires Stands(w, program, s.frame, h, u, k) && k < |UnitCode(w.ar, program, u)|
    requires At(w, UnitCode(w.ar, program, u), UnitLayout(program, u), UnitOut(u), s, k, i)
    ensures h >= InstrEffect(i).need && Decode(s.frame.code, s.frame.ip) == Some(i)
  {
    hide UnitCode, UnitLayout, UnitOut, ChunkOf, Offset, FitsFunction, Decode, InstrEffect;
  }

  /** The operands an instruction needs are the least it runs with: with fewer values on the stack of a frame at the
      bottom it has none to read. */
  lemma NeedIsLeast(w: World, s: State, i: Instr)
    requires s.frame.base == 0 && |s.stack| < InstrEffect(i).need
    requires !i.CloseUpvalue? && !i.SetUpvalue? && !i.SetUpvalueWithMath?
    ensures Execute(w, s, i).Malformed?
  {
    hide GetSubscript, SetSubscript, UpdateSubscript, SliceOf, Apply, ApplyUnary, Math;
  }

  // The instructions that read a fixed number of values from the top run with as many.
  lemma NeedIsEnough(w: World, s: State, i: Instr)
    requires |s.stack| >= InstrEffect(i).need
    requires i in {Pop, Dup, Swp, GetSub, SetSub, MakeSlice, MakeSliceAbove, MakeSliceUnder, CopyBySlicing, Negate,
               LogicalNot}
      || i.Operate? || i.MakeArray? || i.MakeMap? || i.Jump? || i.PopJumpIfFalse? || i.JumpIfFalse?
    ensures !Execute(w, s, i).Malformed?
  {
    hide GetSubscript, SetSubscript, UpdateSubscript, SliceOf, Apply, ApplyUnary, NewMap, Falsey;
  }
}

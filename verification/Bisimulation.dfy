/**
 The machine on squashed code and the machine on the original code go through the same states: one step of
 the former is one step of the latter, after the pairs that were dropped.
 */
module Bisimulation {
  import opened Syntax
  import opened Arithmetic
  import opened Values
  import opened Primitives
  import opened Bytecode
  import opened Assembly
  import opened Vm
  import opened Peephole

  // ----- code whose jumps the pass leaves right -----

  // The jump at k lands on instruction j, and no dropped pair lies between.
  predicate JumpsTo(code: seq<Instr>, k: nat, j: nat) {
    && k < |code| && j <= |code| && IsJump(code[k]) && !Inside(code, j)
    && if code[k].Loop? then
         j <= k && Address(code, j) == Address(code, k + 1) - code[k].offset && Pairs(code[j..k + 1]) == 0
       else
         k < j && Address(code, j) == Address(code, k + 1) + code[k].offset && Pairs(code[k + 1..j]) == 0
  }

  ghost predicate Clean(code: seq<Instr>) {
    forall k: nat | k < |code| && IsJump(code[k]) :: exists j: nat :: JumpsTo(code, k, j)
  }

  function Squashed(chunk: Chunk, code: seq<Instr>): Chunk {
    Chunk(EncodeAll(Squash(code)), chunk.constants)
  }

  // The same world, with squashed functions; `code` gives the instructions of each function.
  ghost predicate Worlds(w: World, w': World, code: Function -> seq<Instr>) {
    && w'.ar == w.ar && w'.native == w.native
    && forall f :: Spells(w.codeOf(f), code(f)) && Clean(code(f)) && w'.codeOf(f) == Squashed(w.codeOf(f), code(f))
  }

  // ----- corresponding states -----

  // Both frames stand at instruction k.
  ghost predicate SameFrame(fr: Frame, fr': Frame, code: seq<Instr>, k: nat) {
    && fr.base == fr'.base && Spells(fr.code, code) && Clean(code) && k <= |code| && !Inside(code, k)
    && fr.ip == Address(code, k) && fr'.code == Squashed(fr.code, code) && fr'.ip == |EncodeAll(Before(code, k))|
  }

  datatype Point = Point(code: seq<Instr>, k: nat)

  ghost predicate SameFrames(fs: seq<Frame>, fs': seq<Frame>, ps: seq<Point>) {
    |fs| == |fs'| == |ps| && forall i | 0 <= i < |fs| :: SameFrame(fs[i], fs'[i], ps[i].code, ps[i].k)
  }

  predicate SameData(s: State, s': State) {
    && s.stack == s'.stack && s.globals == s'.globals && s.heap == s'.heap && |s.saved| == |s'.saved|
    && s.frame.base == s'.frame.base && s.frame.code.constants == s'.frame.code.constants
  }

  ghost predicate Same(s: State, s': State, ps: seq<Point>, p: Point) {
    SameData(s, s') && SameFrames(s.saved, s'.saved, ps) && SameFrame(s.frame, s'.frame, p.code, p.k)
  }

  // ----- the instructions that stay in their frame -----

  predicate Stays(i: Instr) {
    !IsJump(i) && !i.CallOp? && !i.ReturnOp?
  }

  // Equal outcomes, in frames that did not change.
  predicate SameOutcome(s: State, s': State, o: Outcome, o': Outcome) {
    if o.Running? then
      && o'.Running? && SameData(o.s, o'.s) && o.s.frame == s.frame && o.s.saved == s.saved
      && o'.s.frame == s'.frame && o'.s.saved == s'.saved
    else o' == o
  }

  lemma LocalBoth(w: World, w': World, s: State, s': State, i: Instr)
    requires SameData(s, s') && w'.ar == w.ar && (i.GetLocal? || i.SetLocal? || i.SetLocalWithMath?)
    ensures SameOutcome(s, s', ExecuteLocal(w, s, i), ExecuteLocal(w', s', i))
  {
    hide Math;
  }

  lemma GlobalBoth(w: World, w': World, s: State, s': State, i: Instr)
    requires SameData(s, s') && w'.ar == w.ar && (i.GetGlobal? || i.SetGlobal? || i.SetGlobalWithMath?)
    ensures SameOutcome(s, s', ExecuteGlobal(w, s, i), ExecuteGlobal(w', s', i))
  {
    hide Math;
  }

  lemma SubscriptBoth(w: World, w': World, s: State, s': State, i: Instr)
    requires SameData(s, s') && w'.ar == w.ar && (i.GetSub? || i.SetSub? || i.SetSubWithMath?)
    ensures SameOutcome(s, s', ExecuteSubscript(w, s, i), ExecuteSubscript(w', s', i))
  {
    hide GetSubscript, SetSubscript, UpdateSubscript;
  }

  lemma SliceBoth(w: World, w': World, s: State, s': State, i: Instr)
    requires SameData(s, s') && w'.ar == w.ar
        && (i.MakeSlice? || i.MakeSliceAbove? || i.MakeSliceUnder? || i.CopyBySlicing?)
    ensures SameOutcome(s, s', ExecuteSlice(w, s, i), ExecuteSlice(w', s', i))
  {
    hide SliceOf;
  }

  predicate Operates(i: Instr) {
    i.Negate? || i.LogicalNot? || i.Operate? || i.MakeArray? || i.MakeMap? || i.MakeClosure?
  }

  lemma OperateBoth(w: World, w': World, s: State, s': State, i: Instr)
    requires SameData(s, s') && w'.ar == w.ar && Operates(i)
    ensures SameOutcome(s, s', Execute(w, s, i), Execute(w', s', i))
  {
    hide ExecuteLocal, ExecuteGlobal, ExecuteSubscript, ExecuteSlice, ExecuteCall, ExecuteReturn, Apply, ApplyUnary,
        NewMap, NewArray;
  }

  lemma StackBoth(w: World, w': World, s: State, s': State, i: Instr)
    requires SameData(s, s')
    requires i.Pop? || i.Dup? || i.Swp? || i.PushNull? || i.PushTrue? || i.PushFalse? || i.PushConst?
          || i.GetUpvalue? || i.SetUpvalue? || i.SetUpvalueWithMath? || i.CloseUpvalue?
    ensures SameOutcome(s, s', Execute(w, s, i), Execute(w', s', i))
  {
    hide ExecuteLocal, ExecuteGlobal, ExecuteSubscript, ExecuteSlice, ExecuteCall, ExecuteReturn, Apply, ApplyUnary,
        NewMap, NewArray;
  }

  // Execute hands these on.
  lemma Delegates(w: World, s: State, i: Instr)
    ensures i.GetLocal? || i.SetLocal? || i.SetLocalWithMath? ==> Execute(w, s, i) == ExecuteLocal(w, s, i)
    ensures i.GetGlobal? || i.SetGlobal? || i.SetGlobalWithMath? ==> Execute(w, s, i) == ExecuteGlobal(w, s, i)
    ensures i.GetSub? || i.SetSub? || i.SetSubWithMath? ==> Execute(w, s, i) == ExecuteSubscript(w, s, i)
    ensures i.MakeSlice? || i.MakeSliceAbove? || i.MakeSliceUnder? || i.CopyBySlicing? ==>
        Execute(w, s, i) == ExecuteSlice(w, s, i)
  {
    hide ExecuteLocal, ExecuteGlobal, ExecuteSubscript, ExecuteSlice, ExecuteCall, ExecuteReturn;
  }

  lemma StayBoth(w: World, w': World, s: State, s': State, i: Instr)
    requires SameData(s, s') && w'.ar == w.ar && Stays(i)
    ensures SameOutcome(s, s', Execute(w, s, i), Execute(w', s', i))
  {
    hide Execute, ExecuteLocal, ExecuteGlobal, ExecuteSubscript, ExecuteSlice, SameData, SameOutcome;
    Delegates(w, s, i);
    Delegates(w', s', i);
    if i.GetLocal? || i.SetLocal? || i.SetLocalWithMath? {
      LocalBoth(w, w', s, s', i);
    } else if i.GetGlobal? || i.SetGlobal? || i.SetGlobalWithMath? {
      GlobalBoth(w, w', s, s', i);
    } else if i.GetSub? || i.SetSub? || i.SetSubWithMath? {
      SubscriptBoth(w, w', s, s', i);
    } else if i.MakeSlice? || i.MakeSliceAbove? || i.MakeSliceUnder? || i.CopyBySlicing? {
      SliceBoth(w, w', s, s', i);
    } else if Operates(i) {
      OperateBoth(w, w', s, s', i);
    } else {
      StackBoth(w, w', s, s', i);
    }
  }

  // ----- the instructions that move -----

  function Distance(i: Instr): int
    requires IsJump(i)
  {
    var o: int := i.offset;
    if i.Loop? then -o else o
  }

  // Where a jump goes in both codes.
  lemma {:induction false} JumpBoth(code: seq<Instr>, k: nat) returns (j: nat)
    requires Clean(code) && k < |code| && IsJump(code[k]) && !PairAt(code, k)
    ensures JumpsTo(code, k, j) && j <= |code| && !Inside(code, j)
    ensures Address(code, j) == Address(code, k + 1) + Distance(code[k])
    ensures |EncodeAll(Before(code, j))| == |EncodeAll(Before(code, k + 1))| + Distance(code[k])
  {
    hide Address, Before;
    j :| JumpsTo(code, k, j);
    if j <= k {
      DistanceKept(code, j, k + 1);
    } else {
      DistanceKept(code, k + 1, j);
    }
  }

  /** The pass copies the operand of a jump, so the jump lands on the instruction it landed on before exactly
      when it jumps over no dropped pair; each such pair takes it two bytes off. */
  lemma {:induction false} JumpKept(code: seq<Instr>, k: nat, j: nat)
    requires k < |code| && j <= |code| && IsJump(code[k]) && !PairAt(code, k) && !Inside(code, j)
    requires Address(code, j) == Address(code, k + 1) + Distance(code[k])
    ensures var pairs := if j <= k then Pairs(code[j..k + 1]) else Pairs(code[k + 1..j]);
            && |EncodeAll(Before(code, k + 1))| + Distance(code[k]) ==
               |EncodeAll(Before(code, j))| + (if j <= k then -2 * pairs else 2 * pairs)
            && (|EncodeAll(Before(code, k + 1))| + Distance(code[k]) == |EncodeAll(Before(code, j))| <==> pairs == 0)
  {
    hide Address, Before, Distance;
    if j <= k {
      DistanceKept(code, j, k + 1);
    } else {
      DistanceKept(code, k + 1, j);
    }
  }

  // Both machines after reading instruction k.
  ghost predicate Ready(s: State, s': State, ps: seq<Point>, code: seq<Instr>, k: nat) {
    && k < |code| && Same(s, s', ps, Point(code, k + 1)) && !PairAt(code, k)
  }

  lemma {:induction false} MovedTo(s: State, s': State, ps: seq<Point>, code: seq<Instr>, k: nat, j: nat)
    requires Same(s, s', ps, Point(code, k)) && j <= |code| && !Inside(code, j)
    ensures Same(s.(frame := s.frame.(ip := Address(code, j))),
        s'.(frame := s'.frame.(ip := |EncodeAll(Before(code, j))|)), ps, Point(code, j))
  {
    hide Address, Before, Clean, Spells, Inside;
  }

  lemma {:induction false} PopBoth(s: State, s': State, ps: seq<Point>, p: Point)
    requires Same(s, s', ps, p) && |s.stack| >= 1
    ensures Same(s.(stack := s.stack[..|s.stack| - 1]), s'.(stack := s'.stack[..|s.stack| - 1]), ps, p)
  {
    hide SameFrame, SameFrames;
  }

  // The outcomes of an instruction that moves: the same end, or corresponding states.
  ghost predicate Matched(o: Outcome, o': Outcome, ps: seq<Point>, p: Point) {
    if o.Running? then o'.Running? && Same(o.s, o'.s, ps, p) else o' == o
  }

  predicate Taken(w: World, s: State, i: Instr) {
    i.Jump? || i.Loop? || (s.stack != [] && Falsey(w.ar, s.heap, s.stack[|s.stack| - 1]))
  }

  function Popped(s: State, i: Instr): State {
    if i.PopJumpIfFalse? && s.stack != [] then s.(stack := s.stack[..|s.stack| - 1]) else s
  }

  lemma JumpExecutes(w: World, s: State, i: Instr)
    requires IsJump(i)
    ensures Execute(w, s, i) ==
            if (i.PopJumpIfFalse? || i.JumpIfFalse?) && s.stack == [] then Malformed
            else JumpTo(Popped(s, i), s.frame.ip + (if Taken(w, s, i) then Distance(i) else 0))
  {
    hide ExecuteLocal, ExecuteGlobal, ExecuteSubscript, ExecuteSlice, ExecuteCall, ExecuteReturn, Falsey;
  }

  lemma {:induction false} JumpedTo(s: State, s': State, ps: seq<Point>, code: seq<Instr>, k: nat, j: nat, ip: int,
      ip': int)
    requires Same(s, s', ps, Point(code, k)) && j <= |code| && !Inside(code, j)
    requires ip == Address(code, j) && ip' == |EncodeAll(Before(code, j))|
    ensures Matched(JumpTo(s, ip), JumpTo(s', ip'), ps, Point(code, j))
  {
    hide Address, Before, Same, Inside;
    MovedTo(s, s', ps, code, k, j);
  }

  lemma {:induction false} PoppedBoth(s: State, s': State, ps: seq<Point>, p: Point, i: Instr)
    requires Same(s, s', ps, p)
    ensures Same(Popped(s, i), Popped(s', i), ps, p)
  {
    if i.PopJumpIfFalse? && s.stack != [] {
      PopBoth(s, s', ps, p);
    }
    hide SameFrame, SameFrames;
  }

  // The same values decide both jumps.
  lemma TakenBoth(w: World, w': World, s: State, s': State, i: Instr)
    requires s.stack == s'.stack && s.heap == s'.heap && w'.ar == w.ar
    ensures Taken(w', s', i) == Taken(w, s, i)
  {
    hide Falsey;
  }

  lemma {:induction false} JumpsBoth(w: World, w': World, s: State, s': State, ps: seq<Point>, code: seq<Instr>,
      k: nat) returns (p: Point)
    requires Ready(s, s', ps, code, k) && IsJump(code[k]) && w'.ar == w.ar
    ensures Matched(Execute(w, s, code[k]), Execute(w', s', code[k]), ps, p)
  {
    hide Clean, Address, Before, Execute, Distance, JumpTo, Same, Inside, Taken, Popped, JumpsTo, EncodeAll, PairAt;
    var i, at := code[k], Point(code, k + 1);
    Framed(s, s', ps, code, k);
    var j := JumpBoth(code, k);
    JumpExecutes(w, s, i);
    JumpExecutes(w', s', i);
    TakenBoth(w, w', s, s', i);
    PoppedBoth(s, s', ps, at, i);
    var taken := Taken(w, s, i);
    p := Point(code, if taken then j else k + 1);
    if !((i.PopJumpIfFalse? || i.JumpIfFalse?) && s.stack == []) {
      var d := if taken then Distance(i) else 0;
      JumpedTo(Popped(s, i), Popped(s', i), ps, code, k + 1, p.k, s.frame.ip + d, s'.frame.ip + d);
    }
  }

  predicate Frames(s: State, s': State, code: seq<Instr>, k: nat) {
    && k < |code| && s.stack == s'.stack && s.heap == s'.heap
    && s.frame.ip == Address(code, k + 1) && s'.frame.ip == |EncodeAll(Before(code, k + 1))| && !Inside(code, k + 1)
  }

  lemma {:induction false} Framed(s: State, s': State, ps: seq<Point>, code: seq<Instr>, k: nat)
    requires Ready(s, s', ps, code, k)
    ensures Frames(s, s', code, k) && Clean(code)
  {
  }

  predicate EntersFrame(s: State, argc: Byte) {
    var n := |s.stack|;
    n >= 1 + argc && s.stack[n - 1].Closure? && |s.stack[n - 1].f.params| == argc && |s.saved| + 1 != FRAMES_MAX
  }

  lemma {:induction false} CallBoth(w: World, w': World, code: Function -> seq<Instr>, s: State, s': State,
      ps: seq<Point>, at: Point, argc: Byte)
    returns (ps': seq<Point>, p: Point)
    requires Worlds(w, w', code) && Same(s, s', ps, at)
    ensures Matched(ExecuteCall(w, s, argc), ExecuteCall(w', s', argc), ps', p)
  {
    hide SameFrame, Clean, Spells;
    if EntersFrame(s, argc) {
      var f := s.stack[|s.stack| - 1].f;
      EnterSame(w, w', code, f, |s.stack| - 1 - argc);
      hide Worlds;
      ps', p := ps + [at], Point(code(f), 0);
    } else {
      StayingCall(w, w', s, s', argc);
      hide ExecuteCall, Worlds;
      ps', p := ps, at;
    }
  }

  lemma StayingCall(w: World, w': World, s: State, s': State, argc: Byte)
    requires SameData(s, s') && w'.native == w.native && !EntersFrame(s, argc)
    ensures SameOutcome(s, s', ExecuteCall(w, s, argc), ExecuteCall(w', s', argc))
  {
  }

  lemma {:induction false} EnterSame(w: World, w': World, code: Function -> seq<Instr>, f: Function, base: nat)
    requires Worlds(w, w', code)
    ensures SameFrame(Frame(w.codeOf(f), 0, base), Frame(w'.codeOf(f), 0, base), code(f), 0)
    ensures w.codeOf(f).constants == w'.codeOf(f).constants
  {
    hide Clean, Spells;
    NothingBefore(code(f));
  }

  lemma {:induction false} ReturnBoth(s: State, s': State, ps: seq<Point>, at: Point)
      returns (ps': seq<Point>, p: Point)
    requires Same(s, s', ps, at)
    ensures Matched(ExecuteReturn(s), ExecuteReturn(s'), ps', p)
  {
    ps', p := ps, at;
    if s.saved != [] {
      var k := |s.saved| - 1;
      ps', p := ps[..k], ps[k];
      FrameConstants(s.saved[k], s'.saved[k], p);
    }
    hide SameFrame;
  }

  lemma FrameConstants(fr: Frame, fr': Frame, p: Point)
    requires SameFrame(fr, fr', p.code, p.k)
    ensures fr.code.constants == fr'.code.constants && fr.base == fr'.base
  {
  }

  // ----- steps -----

  lemma {:induction false} SquashMembers(code: seq<Instr>, i: Instr)
    requires i in Squash(code)
    ensures i in code
    decreases |code|
  {
    if code != [] {
      if PairAt(code, 0) {
        SquashMembers(code[2..], i);
      } else if i != code[0] {
        SquashMembers(code[1..], i);
      }
    }
  }

  lemma {:induction false} SpellsSquashed(chunk: Chunk, code: seq<Instr>)
    requires Spells(chunk, code)
    ensures Spells(Squashed(chunk, code), Squash(code))
  {
    hide EncodeAll, Squash, Fits;
    forall i | i in Squash(code) ensures i in code {
      SquashMembers(code, i);
    }
  }

  // Both machines read instruction k.
  lemma {:induction false} FetchBoth(s: State, s': State, ps: seq<Point>, code: seq<Instr>, k: nat)
    requires Same(s, s', ps, Point(code, k)) && k < |code| && !PairAt(code, k)
    ensures Decode(s.frame.code, s.frame.ip) == Some(code[k]) && Decode(s'.frame.code, s'.frame.ip) == Some(code[k])
    ensures Ready(Advance(s, code[k]), Advance(s', code[k]), ps, code, k)
  {
    hide Decode, SameFrames, SameFrame, EncodeAll, Squash, PairAt;
    FetchFrames(s.frame, s'.frame, code, k);
    assert Advance(s, code[k]).frame == s.frame.(ip := s.frame.ip + Width(code[k]));
  }

  lemma {:induction false} FetchFrames(fr: Frame, fr': Frame, code: seq<Instr>, k: nat)
    requires SameFrame(fr, fr', code, k) && k < |code| && !PairAt(code, k)
    ensures Decode(fr.code, fr.ip) == Some(code[k]) && Decode(fr'.code, fr'.ip) == Some(code[k])
    ensures SameFrame(fr.(ip := fr.ip + Width(code[k])), fr'.(ip := fr'.ip + Width(code[k])), code, k + 1)
  {
    hide Decode, Clean, Fits, Encode, EncodeAll, Squash;
    var at := |Before(code, k)|;
    StandsThere(fr.code, code, k);
    DecodeEncode(fr.code, fr.ip, code[k]);
    SpellsSquashed(fr.code, code);
    SquashAt(code, k);
    assert Squash(code)[..at] == Before(code, k);
    StandsThere(fr'.code, Squash(code), at);
    DecodeEncode(fr'.code, fr'.ip, code[k]);
    AddressNext(code, k);
    KeepInstr(code, k);
    EncodeWidth(code[k]);
  }

  ghost predicate NeverMalformed(w: World, s: State) {
    forall m: nat :: Run(w, s, m) != Malformed
  }

  lemma {:induction false} NeverLater(w: World, s: State, n: nat, t: State)
    requires NeverMalformed(w, s) && Run(w, s, n) == Running(t)
    ensures NeverMalformed(w, t)
  {
    hide Run;
    forall m: nat ensures Run(w, t, m) != Malformed {
      RunAdd(w, s, n, m);
    }
  }

  lemma {:induction false} OneStep(w: World, s: State)
    ensures Run(w, s, 1) == Step(w, s)
  {
    hide Step;
    match Step(w, s)
    case Running(t) => assert Run(w, t, 0) == Running(t);
    case _ =>
  }

  // The original machine runs through a pair that was dropped.
  lemma {:induction false} PairSteps(w: World, s: State, s': State, ps: seq<Point>, code: seq<Instr>, k: nat)
      returns (t: State)
    requires Same(s, s', ps, Point(code, k)) && PairAt(code, k) && NeverMalformed(w, s)
    ensures Run(w, s, 2) == Running(t) && Same(t, s', ps, Point(code, k + 2))
  {
    var s1 := s.(frame := s.frame.(ip := Address(code, k + 1)),
        stack := s.stack + [if s.stack == [] then Null else s.stack[|s.stack| - 1]]);
    t := s.(frame := s.frame.(ip := Address(code, k + 2)));
    PairDecodes(s.frame, s'.frame, code, k);
    DupStep(w, s, s1);
    OneStep(w, s);
    assert Run(w, s, 1) != Malformed;
    PopStep(w, s1, t);
    OneStep(w, s1);
    RunAdd(w, s, 1, 1);
    hide Step, Run, SameFrames, Address, Before, EncodeAll, Clean, Spells, Inside;
  }

  lemma {:induction false} PairDecodes(fr: Frame, fr': Frame, code: seq<Instr>, k: nat)
    requires SameFrame(fr, fr', code, k) && PairAt(code, k)
    ensures Decode(fr.code, fr.ip) == Some(Dup) && Decode(fr.code, Address(code, k + 1)) == Some(Pop)
    ensures Address(code, k + 1) == fr.ip + 1 && Address(code, k + 2) == fr.ip + 2
    ensures SameFrame(fr.(ip := Address(code, k + 2)), fr', code, k + 2)
  {
    hide Decode, Clean, Fits, Encode, EncodeAll, Squash;
    StandsThere(fr.code, code, k);
    StandsThere(fr.code, code, k + 1);
    DecodeEncode(fr.code, fr.ip, Dup);
    DecodeEncode(fr.code, Address(code, k + 1), Pop);
    AddressNext(code, k);
    AddressNext(code, k + 1);
    BeforePair(code, k);
  }

  lemma DupStep(w: World, s: State, t: State)
    requires Decode(s.frame.code, s.frame.ip) == Some(Dup) && t.frame == s.frame.(ip := s.frame.ip + 1)
    requires t == s.(frame := t.frame, stack := s.stack + [if s.stack == [] then Null else s.stack[|s.stack| - 1]])
    ensures Step(w, s) == if s.stack == [] then Malformed else Running(t)
  {
    hide Decode;
  }

  lemma PopStep(w: World, s: State, t: State)
    requires Decode(s.frame.code, s.frame.ip) == Some(Pop) && t.frame == s.frame.(ip := s.frame.ip + 1)
    requires s.stack != [] && t == s.(frame := t.frame, stack := s.stack[..|s.stack| - 1])
    ensures Step(w, s) == Running(t)
  {
    hide Decode;
  }

  lemma {:induction false} SkipPairs(w: World, s: State, s': State, ps: seq<Point>, code: seq<Instr>, k: nat)
      returns (n: nat, t: State, j: nat)
    requires Same(s, s', ps, Point(code, k)) && k <= |code| && NeverMalformed(w, s)
    ensures Run(w, s, n) == Running(t) && NeverMalformed(w, t)
    ensures j < |code| && !PairAt(code, j) && Same(t, s', ps, Point(code, j))
    decreases |code| - k
  {
    n, t, j := 0, s, k;
    if k == |code| {
      EndIsMalformed(w, s, s', ps, code);
      assert false;
    } else if PairAt(code, k) {
      var t1 := PairSteps(w, s, s', ps, code, k);
      NeverLater(w, s, 2, t1);
      n, t, j := SkipPairs(w, t1, s', ps, code, k + 2);
      RunAdd(w, s, 2, n);
      n := n + 2;
    }
    hide Same, Run, PairAt, Inside;
  }

  lemma {:induction false} EndIsMalformed(w: World, s: State, s': State, ps: seq<Point>, code: seq<Instr>)
    requires Same(s, s', ps, Point(code, |code|))
    ensures Run(w, s, 1) == Malformed
  {
    hide Clean, SameFrames, EncodeAll;
    assert code[..|code|] == code;
    OneStep(w, s);
  }

  // One step of the machine on squashed code.
  lemma {:induction false} StepBoth(w: World, w': World, code: Function -> seq<Instr>, s: State, s': State,
      ps: seq<Point>, p: Point)
    returns (n: nat, ps': seq<Point>, p': Point)
    requires Worlds(w, w', code) && Same(s, s', ps, p) && NeverMalformed(w, s)
    ensures n >= 1 && Matched(Run(w, s, n), Step(w', s'), ps', p')
  {
    hide Step, Run, Execute, Same, Worlds, NeverMalformed, PairAt, Decode, Advance, Inside, Ready;
    AtPoint(s, s', ps, p);
    var m, t, j := SkipPairs(w, s, s', ps, p.code, p.k);
    var i := p.code[j];
    FetchBoth(t, s', ps, p.code, j);
    ps', p' := ExecuteBoth(w, w', code, Advance(t, i), Advance(s', i), ps, p.code, j);
    ReadyAt(Advance(t, i), Advance(s', i), ps, p.code, j);
    RunAdd(w, s, m, 1);
    OneStep(w, t);
    n := m + 1;
    StepReads(w, t, i);
    StepReads(w', s', i);
  }

  lemma ReadyAt(s: State, s': State, ps: seq<Point>, code: seq<Instr>, k: nat)
    requires Ready(s, s', ps, code, k)
    ensures k < |code|
  {
  }

  lemma AtPoint(s: State, s': State, ps: seq<Point>, p: Point)
    requires Same(s, s', ps, p)
    ensures p.k <= |p.code| && p == Point(p.code, p.k)
  {
  }

  lemma StepReads(w: World, s: State, i: Instr)
    requires Decode(s.frame.code, s.frame.ip) == Some(i)
    ensures Step(w, s) == Execute(w, Advance(s, i), i)
  {
  }

  lemma {:induction false} ExecuteBoth(w: World, w': World, code: Function -> seq<Instr>, s: State, s': State,
      ps: seq<Point>, c: seq<Instr>, k: nat)
    returns (ps': seq<Point>, p: Point)
    requires Worlds(w, w', code) && Ready(s, s', ps, c, k)
    ensures Matched(Execute(w, s, c[k]), Execute(w', s', c[k]), ps', p)
  {
    ps', p := ps, Point(c, k + 1);
    var i := c[k];
    if IsJump(i) {
      p := JumpsBoth(w, w', s, s', ps, c, k);
    } else if i.CallOp? {
      ps', p := CallBoth(w, w', code, s, s', ps, p, i.argc);
      Moves(w, s, i);
      Moves(w', s', i);
    } else if i.ReturnOp? {
      ps', p := ReturnBoth(s, s', ps, p);
      Moves(w, s, i);
      Moves(w', s', i);
    } else {
      StayBoth(w, w', s, s', i);
      hide Execute, Worlds, SameFrame, SameFrames;
    }
    hide Execute, ExecuteCall, ExecuteReturn, Worlds, Matched, Ready;
  }

  lemma Moves(w: World, s: State, i: Instr)
    ensures i.CallOp? ==> Execute(w, s, i) == ExecuteCall(w, s, i.argc)
    ensures i.ReturnOp? ==> Execute(w, s, i) == ExecuteReturn(s)
  {
  }

  // ----- runs -----

  lemma {:induction false} RunBoth(w: World, w': World, code: Function -> seq<Instr>, s: State, s': State,
      ps: seq<Point>, p: Point, m: nat)
    returns (n: nat)
    requires Worlds(w, w', code) && Same(s, s', ps, p) && NeverMalformed(w, s)
    ensures if Run(w', s', m).Running? then n >= m && Run(w, s, n).Running? else Run(w, s, n) == Run(w', s', m)
    decreases m
  {
    hide Step, Worlds, Same, NeverMalformed;
    n := 0;
    if m > 0 {
      var n1, ps1, p1 := StepBoth(w, w', code, s, s', ps, p);
      n := n1;
      if Step(w', s').Running? {
        var t, t' := Run(w, s, n1).s, Step(w', s').s;
        NeverLater(w, s, n1, t);
        var n2 := RunBoth(w, w', code, t, t', ps1, p1, m - 1);
        RunAdd(w, s, n1, n2);
        n := n1 + n2;
      }
    }
  }

  /** The pass preserves meaning: where the original machine never meets malformed code, both machines end
      in the same way, or both run for ever. */
  lemma {:induction false} OptimizePreserves(w: World, w': World, code: Function -> seq<Instr>, s: State, s': State,
      ps: seq<Point>, p: Point, o: Outcome)
    requires Worlds(w, w', code) && Same(s, s', ps, p) && NeverMalformed(w, s)
    ensures Ends(w, s, o) <==> Ends(w', s', o)
  {
    hide Run, Worlds, Same;
    if Ends(w, s, o) {
      var m: nat :| Run(w, s, m) == o;
      var n := RunBoth(w, w', code, s, s', ps, p, m);
      if Run(w', s', m).Running? {
        RunsOn(w, s, n, m);
      } else {
        RunOnce(w, s, n, m);
      }
    }
    if Ends(w', s', o) {
      var m: nat :| Run(w', s', m) == o;
      var n := RunBoth(w, w', code, s, s', ps, p, m);
    }
  }
}

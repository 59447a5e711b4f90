/**
 From source to result: a program that is compiled, optimized and run ends as its source says.
 */
module Pipeline {
  import opened Syntax
  import opened Arithmetic
  import opened Values
  import opened Primitives
  import opened Bytecode
  import opened Assembly
  import opened Codegen
  import opened Domain
  import opened Vm
  import opened Semantics
  import opened Runs
  import opened Compiler
  import opened Patching
  import opened Correctness
  import opened Jumps
  import opened Peephole
  import opened Bisimulation

  // ----- the instructions of a listing -----

  function InstrAt(ar: Arith, pool: seq<Value>, it: Item): Instr {
    match it
    case Plain(i) => i
    case WithConstant(use, v) => InstrOf(use, Short16(FindConstant(ar, pool, v)))
    case _ => Jump(0xffff)
  }

  function PoolAfter(ar: Arith, pool: seq<Value>, it: Item): seq<Value> {
    if it.WithConstant? then Assembly.AddConstant(ar, pool, it.v) else pool
  }

  function InstrsFrom(ar: Arith, pool: seq<Value>, items: seq<Item>): (r: seq<Instr>)
    ensures |r| == |items|
    decreases |items|
  {
    if items == [] then []
    else [InstrAt(ar, pool, items[0])] + InstrsFrom(ar, PoolAfter(ar, pool, items[0]), items[1..])
  }

  function Instrs(ar: Arith, items: seq<Item>): (r: seq<Instr>)
    ensures |r| == |items|
  {
    InstrsFrom(ar, [], items)
  }

  lemma PutInstr(ar: Arith, c: Chunk, it: Item)
    ensures PutItem(ar, c, it) == Chunk(c.bytes + Encode(InstrAt(ar, c.constants, it)), PoolAfter(ar, c.constants, it))
  {
    hide Encode;
  }

  lemma {:induction false} AssembleInstrs(ar: Arith, c: Chunk, items: seq<Item>)
    ensures Assemble(ar, c, items).bytes == c.bytes + EncodeAll(InstrsFrom(ar, c.constants, items))
    decreases |items|
  {
    hide PutItem, InstrAt, PoolAfter, Encode;
    if items != [] {
      var i, c1 := InstrAt(ar, c.constants, items[0]), PutItem(ar, c, items[0]);
      PutInstr(ar, c, items[0]);
      AssembleInstrs(ar, c1, items[1..]);
      var rest := InstrsFrom(ar, c1.constants, items[1..]);
      assert ([i] + rest)[1..] == rest;
      assert (c.bytes + Encode(i)) + EncodeAll(rest) == c.bytes + (Encode(i) + EncodeAll(rest));
    }
  }

  // Instruction k was made with the constants of the listing before it.
  lemma {:induction false} InstrsAt(ar: Arith, c: Chunk, items: seq<Item>, k: nat)
    requires k < |items|
    ensures InstrsFrom(ar, c.constants, items)[k] == InstrAt(ar, Assemble(ar, c, items[..k]).constants, items[k])
    decreases k
  {
    hide PutItem, InstrAt, PoolAfter;
    if k == 0 {
      assert items[..0] == [];
    } else {
      var c1 := PutItem(ar, c, items[0]);
      PutInstr(ar, c, items[0]);
      InstrsAt(ar, c1, items[1..], k - 1);
      assert items[..k][1..] == items[1..][..k - 1] && items[..k][0] == items[0];
    }
  }

  lemma {:induction false} InstrsPrefix(ar: Arith, pool: seq<Value>, items: seq<Item>, k: nat)
    requires k <= |items|
    ensures InstrsFrom(ar, pool, items)[..k] == InstrsFrom(ar, pool, items[..k])
    decreases k
  {
    hide InstrAt, PoolAfter;
    if k > 0 {
      InstrsPrefix(ar, PoolAfter(ar, pool, items[0]), items[1..], k - 1);
      assert items[..k][1..] == items[1..][..k - 1] && items[..k][0] == items[0];
    }
  }

  lemma {:induction false} InstrsAddress(ar: Arith, items: seq<Item>, k: nat)
    requires k <= |items|
    ensures Address(Instrs(ar, items), k) == Offset(items, k)
  {
    hide InstrsFrom, Assemble, EncodeAll, Size;
    InstrsPrefix(ar, [], items, k);
    AssembleInstrs(ar, EMPTY, items[..k]);
    AssembleGrows(ar, EMPTY, items[..k]);
  }

  // What an item shows of its instruction.
  lemma {:induction false} InstrsShow(ar: Arith, items: seq<Item>, k: nat)
    requires k < |items| && HoleFree(items)
    ensures var i := Instrs(ar, items)[k];
            && (items[k].Plain? ==> i == items[k].i)
            && (items[k].WithConstant? ==> !IsJump(i) && i != Dup && i != Pop)
            && (items[k].Plain? || items[k].WithConstant?)
  {
    hide InstrsFrom, Assemble;
    InstrsAt(ar, EMPTY, items, k);
    assert items[k] in items;
  }

  // ----- what the pass needs of a listing -----

  lemma {:induction false} JumpsClean(ar: Arith, items: seq<Item>, k: nat, j: nat)
    requires HoleFree(items) && Lands(items, k, j, true)
    ensures JumpsTo(Instrs(ar, items), k, j)
  {
    hide Instrs, Offset, Address, HoleFree;
    var code := Instrs(ar, items);
    InstrsShow(ar, items, k);
    InstrsAddress(ar, items, j);
    InstrsAddress(ar, items, k + 1);
    if j <= k {
      InstrsShow(ar, items, j);
      SpanClean(ar, items, j, k + 1);
    } else {
      SpanClean(ar, items, k + 1, j);
    }
  }

  lemma {:induction false} SpanClean(ar: Arith, items: seq<Item>, lo: nat, hi: nat)
    requires HoleFree(items) && lo <= hi <= |items| && NoDup(items[lo..hi])
    ensures Pairs(Instrs(ar, items)[lo..hi]) == 0
    ensures lo < hi ==> Instrs(ar, items)[hi - 1] != Dup
  {
    hide Instrs, HoleFree;
    var code := Instrs(ar, items);
    forall m: nat | lo <= m < hi ensures code[m] != Dup {
      InstrsShow(ar, items, m);
      assert items[m] == items[lo..hi][m - lo];
    }
    NoPairs(code[lo..hi]);
  }

  lemma {:induction false} CleanCode(ar: Arith, items: seq<Item>)
    requires HoleFree(items) && WellPlaced(items, true)
    ensures Clean(Instrs(ar, items))
  {
    hide Instrs, JumpsTo, Lands, HoleFree;
    var code := Instrs(ar, items);
    forall k: nat | k < |code| && IsJump(code[k]) ensures exists j: nat :: JumpsTo(code, k, j) {
      InstrsShow(ar, items, k);
      assert JumpAt(items, k);
      var j: nat :| Lands(items, k, j, true);
      JumpsClean(ar, items, k, j);
    }
  }

  lemma {:induction false} FitsAt(ar: Arith, items: seq<Item>, k: nat)
    requires Faithful(ar, items) && k < |items|
    ensures Fits(ChunkOf(ar, items).constants, Instrs(ar, items)[k])
  {
    hide InstrsFrom, PutItem, Assemble;
    InstrsAt(ar, EMPTY, items, k);
    if items[k].WithConstant? && items[k].use.Close? {
      var c, v := ChunkOf(ar, items[..k]), items[k].v;
      FunctionIsNew(ar, c.constants, v);
      assert items == (items[..k] + [items[k]]) + items[k + 1..];
      AssembleAppend(ar, EMPTY, items[..k] + [items[k]], items[k + 1..]);
      AssembleAppend(ar, EMPTY, items[..k], [items[k]]);
      PutConstants(ar, c, items[k]);
      AssembleGrows(ar, PutItem(ar, c, items[k]), items[k + 1..]);
      var pool := ChunkOf(ar, items).constants;
      assert c.constants + [v] <= pool;
      assert pool[|c.constants|] == v;
    }
  }

  lemma {:induction false} FunctionIsNew(ar: Arith, pool: seq<Value>, v: Value)
    requires v.FunctionObj?
    ensures FindConstant(ar, pool, v) == |pool|
  {
    if pool != [] {
      FunctionIsNew(ar, pool[1..], v);
    }
  }

  lemma {:induction false} KnownAt(ar: Arith, items: seq<Item>, k: nat, tame: bool)
    requires HoleFree(items) && WellPlaced(items, tame) && k < |items|
    ensures !Instrs(ar, items)[k].JumpIfFalse?
  {
    hide Instrs, HoleFree;
    InstrsShow(ar, items, k);
    if JumpAt(items, k) {
      var j: nat :| Lands(items, k, j, tame);
    }
  }

  lemma {:induction false} SpelledCode(ar: Arith, items: seq<Item>, tame: bool)
    requires HoleFree(items) && WellPlaced(items, tame) && Faithful(ar, items)
    ensures Spells(ChunkOf(ar, items), Instrs(ar, items))
  {
    hide InstrsFrom, EncodeAll, Assemble, Faithful, WellPlaced, HoleFree, Fits;
    AssembleInstrs(ar, EMPTY, items);
    var code := Instrs(ar, items);
    assert [] + EncodeAll(code) == EncodeAll(code);
    forall i | i in code ensures Fits(ChunkOf(ar, items).constants, i) && !i.JumpIfFalse? {
      var k :| 0 <= k < |code| && code[k] == i;
      FitsAt(ar, items, k);
      KnownAt(ar, items, k, tame);
    }
  }

  // A chunk after the peephole pass.
  function OptimizedCode(ar: Arith, items: seq<Item>): Chunk {
    Squashed(ChunkOf(ar, items), Instrs(ar, items))
  }

  // ----- programs -----

  // A function that the compiler accepts, in the domain of the correctness theorem, and safe to optimize: none of its
  // jumps passes over a pair that the pass drops.
  ghost predicate Supported(ar: Arith, f: Function) {
    FitsFunction(ar, f) && AcceptsS(f.code, false) && Clean(Instrs(ar, FunctionCode(ar, f)))
  }

  lemma {:induction false} FunctionCodeSpelled(ar: Arith, f: Function)
    requires FitsFunction(ar, f) && AcceptsS(f.code, false)
    ensures Spells(ChunkOf(ar, FunctionCode(ar, f)), Instrs(ar, FunctionCode(ar, f)))
  {
    var items := FunctionCode(ar, f);
    assert Faithful(ar, items);
    hide FunctionCode, Tame, AcceptsS, FitsS, Instrs, WellPlaced, HoleFree, ChunkOf, Spells;
    FunctionJumpsLand(ar, f, false);
    SpelledCode(ar, items, false);
  }

  /** A function of the domain is safe to optimize if none of its loops and conditionals assigns a name for the first
      time, which can be read off the source. */
  lemma {:induction false} TameIsSupported(ar: Arith, f: Function)
    requires FitsFunction(ar, f) && AcceptsS(f.code, false) && Tame(ar, Scope(false, f.params), f.code)
    ensures Supported(ar, f)
  {
    assert Faithful(ar, FunctionCode(ar, f));
    hide FunctionCode, Tame, AcceptsS, FitsS, Instrs, WellPlaced, HoleFree, Clean;
    FunctionJumpsLand(ar, f, true);
    CleanCode(ar, FunctionCode(ar, f));
  }

  lemma {:induction false} ProgramCodeClean(ar: Arith, program: seq<Stmt>)
    requires FitsProgram(ar, program) && AcceptsS(Block(program), false)
    ensures Spells(ChunkOf(ar, ProgramCode(ar, program)), Instrs(ar, ProgramCode(ar, program)))
        && Clean(Instrs(ar, ProgramCode(ar, program)))
  {
    var items := ProgramCode(ar, program);
    assert Faithful(ar, items);
    hide ProgramCode, AcceptsS, FitsS, Instrs, WellPlaced, HoleFree, ChunkOf, Spells, Clean;
    ProgramJumpsLand(ar, program, true);
    CleanCode(ar, items);
    SpelledCode(ar, items, true);
  }

  // Code without Dup is left as it is.
  lemma {:induction false} SquashSame(code: seq<Instr>)
    requires Dup !in code
    ensures Squash(code) == code
  {
    if code != [] {
      SquashSame(code[1..]);
    }
  }

  lemma {:induction false} InstrsNoDup(ar: Arith, items: seq<Item>)
    requires HoleFree(items) && NoDup(items)
    ensures Dup !in Instrs(ar, items)
  {
    hide Instrs, HoleFree;
    var code := Instrs(ar, items);
    forall k | 0 <= k < |code| ensures code[k] != Dup {
      InstrsShow(ar, items, k);
      assert items[k] in items;
    }
  }

  /** The pass does nothing to the code of the top level of a file. */
  lemma {:induction false} ProgramUnchanged(ar: Arith, program: seq<Stmt>)
    requires AcceptsS(Block(program), false)
    ensures OptimizedCode(ar, ProgramCode(ar, program)) == ChunkOf(ar, ProgramCode(ar, program))
  {
    var code, items := CodeS(ar, Scope(true, []), Block(program)), ProgramCode(ar, program);
    hide CodeS, AcceptsS, HoleFree, Assemble, EncodeAll, InstrsFrom, Squash;
    NoDupTopS(ar, Scope(true, []), Block(program));
    HoleFreeS(ar, Scope(true, []), Block(program));
    PlacedEnding(false);
    HoleFreeAppend(code, ENDING);
    assert NoDup(ENDING);
    NoDupAppend(code, ENDING);
    InstrsNoDup(ar, items);
    SquashSame(Instrs(ar, items));
    AssembleInstrs(ar, EMPTY, items);
    assert [] + EncodeAll(Instrs(ar, items)) == EncodeAll(Instrs(ar, items));
  }

  // ----- machines that differ in the code of functions that are never called -----

  // Where the code of a function differs, the first machine has none.
  ghost predicate Covers(w: World, w': World) {
    w'.ar == w.ar && w'.native == w.native && forall f :: w'.codeOf(f) == w.codeOf(f) || w.codeOf(f) == EMPTY
  }

  lemma {:induction false} StepAgrees(w: World, w': World, s: State)
    requires Covers(w, w')
    ensures Step(w', s) == Step(w, s) || (Step(w, s).Running? && Step(w, Step(w, s).s) == Malformed)
  {
    hide Execute, Decode;
    var d := Decode(s.frame.code, s.frame.ip);
    if d.Some? {
      ExecuteAgrees(w, w', Advance(s, d.value), d.value);
      var o := Step(w, s);
      if o.Running? && o.s.frame.code == EMPTY {
        EmptyStops(w, o.s);
      }
    }
  }

  lemma EmptyStops(w: World, s: State)
    requires s.frame.code == EMPTY
    ensures Step(w, s) == Malformed
  {
  }

  lemma {:induction false} ExecuteAgrees(w: World, w': World, s: State, i: Instr)
    requires Covers(w, w')
    ensures Execute(w', s, i) == Execute(w, s, i)
        || (Execute(w, s, i).Running? && Execute(w, s, i).s.frame.code == EMPTY)
  {
    if IsJump(i) {
      JumpExecutes(w, s, i);
      JumpExecutes(w', s, i);
      hide Execute, Falsey;
    } else if i.CallOp? {
      Moves(w, s, i);
      Moves(w', s, i);
      hide Execute;
    } else if i.ReturnOp? {
      Moves(w, s, i);
      Moves(w', s, i);
      hide Execute, ExecuteReturn;
    } else {
      StayBoth(w, w', s, s, i);
      hide Execute;
    }
  }

  lemma {:induction false} RunAgrees(w: World, w': World, s: State, n: nat)
    requires Covers(w, w') && NeverMalformed(w, s)
    ensures Run(w', s, n) == Run(w, s, n)
    decreases n
  {
    hide Step, Covers;
    if n > 0 {
      StepAgrees(w, w', s);
      OneStep(w, s);
      if Step(w, s).Running? {
        var t := Step(w, s).s;
        NeverLater(w, s, 1, t);
        OneStep(w, t);
        assert Run(w, t, 1) != Malformed;
        RunAgrees(w, w', t, n - 1);
      }
    }
  }

  // ----- the theorem -----

  // The source side of a machine: only functions in the domain have code, the code the compiler emits.
  ghost predicate SourceSide(w: World) {
    && Exact(w.ar)
    && (forall f :: w.codeOf(f) == if w.admits(f) then ChunkOf(w.ar, FunctionCode(w.ar, f)) else EMPTY)
    && (forall f | w.admits(f) :: Supported(w.ar, f))
  }

  // The machine that runs: the same functions, optimized.
  ghost predicate MachineSide(w: World, w': World) {
    w'.ar == w.ar && w'.native == w.native
        && forall f | w.admits(f) :: w'.codeOf(f) == OptimizedCode(w.ar, FunctionCode(w.ar, f))
  }

  function Loaded(ar: Arith, program: seq<Stmt>, globals: map<Name, Value>, heap: Heap): State {
    State([], Frame(OptimizedCode(ar, ProgramCode(ar, program)), 0, 0), [], globals, heap)
  }

  function InstrsOf(w: World): Function -> seq<Instr> {
    f => if w.admits(f) then Instrs(w.ar, FunctionCode(w.ar, f)) else []
  }

  // The machine in between: optimized functions, and no code for the others.
  function Between(w: World): World {
    w.(codeOf := f => if w.admits(f) then OptimizedCode(w.ar, FunctionCode(w.ar, f)) else EMPTY)
  }

  lemma {:induction false} NothingClean()
    ensures Spells(EMPTY, []) && Clean([]) && Squashed(EMPTY, []) == EMPTY
  {
  }

  lemma {:induction false} BetweenWorlds(w: World)
    requires SourceSide(w)
    ensures Worlds(w, Between(w), InstrsOf(w))
  {
    hide FitsFunction, AcceptsS, Instrs, FunctionCode, ChunkOf, Spells, Clean, Squashed, Exact;
    forall f ensures Spells(w.codeOf(f), InstrsOf(w)(f)) && Clean(InstrsOf(w)(f))
        && Between(w).codeOf(f) == Squashed(w.codeOf(f), InstrsOf(w)(f)) {
      NothingClean();
      if w.admits(f) {
        FunctionCodeSpelled(w.ar, f);
        Optimizing(w.ar, FunctionCode(w.ar, f));
      }
    }
  }

  lemma {:induction false} Optimizing(ar: Arith, items: seq<Item>)
    ensures OptimizedCode(ar, items) == Squashed(ChunkOf(ar, items), Instrs(ar, items))
  {
    hide Squashed, ChunkOf, Instrs;
  }

  lemma {:induction false} StartsSame(w: World, program: seq<Stmt>, globals: map<Name, Value>, heap: Heap)
    requires FitsProgram(w.ar, program) && AcceptsS(Block(program), false)
    ensures Same(Initial(w, program, globals, heap), Loaded(w.ar, program, globals, heap), [],
        Point(Instrs(w.ar, ProgramCode(w.ar, program)), 0))
  {
    hide FitsProgram, AcceptsS, ProgramCode, Instrs, ChunkOf, Spells, Clean;
    ProgramCodeClean(w.ar, program);
    NothingBefore(Instrs(w.ar, ProgramCode(w.ar, program)));
  }

  lemma {:induction false} SourceIsSound(w: World)
    requires SourceSide(w)
    ensures Sound(w)
  {
    hide Exact, FunctionCode, ChunkOf, FitsFunction, Instrs, Clean, AcceptsS;
  }

  lemma {:induction false} NotMalformed(r: Result<Completion>)
    requires Defined(r)
    ensures EndOf(r) != Malformed
  {
  }

  // What compiled code of a clear program never does.
  lemma {:induction false} SourceNeverMalformed(w: World, program: seq<Stmt>, globals: map<Name, Value>, heap: Heap)
    requires Sound(w) && FitsProgram(w.ar, program) && Clear(w, program, globals, heap)
    ensures NeverMalformed(w, Initial(w, program, globals, heap))
  {
    hide Sound, FitsProgram, Clear, Meaning, Initial, Run, EndOf, Defined;
    var s := Initial(w, program, globals, heap);
    forall m: nat ensures Run(w, s, m) != Malformed {
      if Run(w, s, m) == Malformed {
        assert Ends(w, s, Malformed);
        CompilerCorrect(w, program, globals, heap, Malformed);
        var fuel: nat :| Defined(Meaning(w, program, globals, heap, fuel))
            && EndOf(Meaning(w, program, globals, heap, fuel)) == Malformed;
        NotMalformed(Meaning(w, program, globals, heap, fuel));
        assert false;
      }
    }
  }

  lemma {:induction false} EndsAgree(w: World, w': World, s: State, o: Outcome)
    requires Covers(w, w') && NeverMalformed(w, s)
    ensures Ends(w, s, o) <==> Ends(w', s, o)
  {
    hide Run, Covers, NeverMalformed;
    forall n: nat ensures Run(w', s, n) == Run(w, s, n) {
      RunAgrees(w, w', s, n);
    }
  }

  lemma {:induction false} BetweenCovers(w: World, w': World)
    requires MachineSide(w, w')
    ensures Covers(Between(w), w')
  {
    hide FunctionCode, OptimizedCode;
  }

  lemma {:induction false} BetweenNeverMalformed(w: World, s: State, s': State, p: Point)
    requires SourceSide(w) && NeverMalformed(w, s) && Same(s, s', [], p)
    ensures NeverMalformed(Between(w), s')
  {
    hide SourceSide, Same, Run, Between, Worlds, InstrsOf;
    BetweenWorlds(w);
    forall m: nat ensures Run(Between(w), s', m) != Malformed {
      if Run(Between(w), s', m) == Malformed {
        assert Ends(Between(w), s', Malformed);
        OptimizePreserves(w, Between(w), InstrsOf(w), s, s', [], p, Malformed);
        assert false;
      }
    }
  }

  /** The machine, running the optimized code of a program and its functions, ends in o exactly when the
      program means o. */
  lemma {:induction false} PipelineCorrect(w: World, w': World, program: seq<Stmt>, globals: map<Name, Value>,
      heap: Heap, o: Outcome)
    requires SourceSide(w) && MachineSide(w, w')
    requires FitsProgram(w.ar, program) && AcceptsS(Block(program), false) && Clear(w, program, globals, heap)
    ensures Ends(w', Loaded(w.ar, program, globals, heap), o) <==> Means(w, program, globals, heap, o)
  {
    hide *;
    var s, s' := Initial(w, program, globals, heap), Loaded(w.ar, program, globals, heap);
    var p := Point(Instrs(w.ar, ProgramCode(w.ar, program)), 0);
    SourceIsSound(w);
    CompilerCorrect(w, program, globals, heap, o);
    SourceNeverMalformed(w, program, globals, heap);
    StartsSame(w, program, globals, heap);
    BetweenWorlds(w);
    OptimizePreserves(w, Between(w), InstrsOf(w), s, s', [], p, o);
    BetweenNeverMalformed(w, s, s', p);
    BetweenCovers(w, w');
    EndsAgree(Between(w), w', s', o);
  }

  // ----- loading -----

  // chunk_optimize on the chunk of every function object.
  method OptimizeFunctions(ar: Arith, fns: Functions)
    requires fns.Compiled(ar) && forall f | f in fns.chunks :: Faithful(ar, FunctionCode(ar, f))
    modifies fns
    ensures fns.chunks.Keys == old(fns.chunks.Keys)
    ensures forall f | f in fns.chunks :: fns.chunks[f] == OptimizedCode(ar, FunctionCode(ar, f))
  {
    hide FunctionCode, ChunkOf, Faithful, OptimizedCode, Instrs, AcceptsE, Spells;
    var todo := fns.chunks.Keys;
    while todo != {}
      invariant todo <= fns.chunks.Keys == old(fns.chunks.Keys)
      invariant forall f | f in todo :: fns.chunks[f] == old(fns.chunks[f])
      invariant forall f | f in fns.chunks && f !in todo :: fns.chunks[f] == OptimizedCode(ar, FunctionCode(ar, f))
      decreases |todo|
    {
      var f :| f in todo;
      CompiledSpells(ar, f);
      var chunk := Optimize(fns.chunks[f], Instrs(ar, FunctionCode(ar, f)));
      OptimizedIs(ar, FunctionCode(ar, f));
      fns.chunks := fns.chunks[f := chunk];
      todo := todo - {f};
    }
  }

  lemma {:induction false} OptimizedIs(ar: Arith, items: seq<Item>)
    ensures OptimizedCode(ar, items) == Chunk(EncodeAll(Squash(Instrs(ar, items))), ChunkOf(ar, items).constants)
  {
    hide ChunkOf, Instrs;
  }

  lemma {:induction false} CompiledSpells(ar: Arith, f: Function)
    requires AcceptsE(Fn(f)) && Faithful(ar, FunctionCode(ar, f))
    ensures Spells(ChunkOf(ar, FunctionCode(ar, f)), Instrs(ar, FunctionCode(ar, f)))
  {
    AcceptsFunction(f);
    hide AcceptsE, AcceptsS, FunctionCode, ChunkOf, Instrs, WellPlaced, HoleFree, Spells;
    FunctionJumpsLand(ar, f, false) by { FaithfulSize(ar, FunctionCode(ar, f)); }
    SpelledCode(ar, FunctionCode(ar, f), false);
  }

  lemma FaithfulSize(ar: Arith, items: seq<Item>)
    requires Faithful(ar, items)
    ensures Size(items) < 0x1_0000
  {
  }

  // The final return adds two instructions and no constants.
  lemma {:induction false} EndingAdds(ar: Arith, body: seq<Item>)
    ensures Instrs(ar, body + ENDING) == Instrs(ar, body) + [PushNull, ReturnOp]
    ensures ChunkOf(ar, body + ENDING) == Chunk(ChunkOf(ar, body).bytes + [3, 46], ChunkOf(ar, body).constants)
  {
    hide InstrsFrom, Assemble;
    var items, c := body + ENDING, ChunkOf(ar, body);
    AssembleAppend(ar, EMPTY, body, ENDING);
    AssembleThree(ar, c, [], [Plain(PushNull)], [Plain(ReturnOp)]);
    assert [] + [Plain(PushNull)] + [Plain(ReturnOp)] == ENDING;
    AssembleNone(ar, c);
    PutOne(ar, c, Plain(PushNull));
    PutOne(ar, Put(c, PushNull), Plain(ReturnOp));
    assert (c.bytes + [3]) + [46] == c.bytes + [3, 46];
    InstrsPrefix(ar, [], items, |body|);
    assert items[..|body|] == body;
    InstrsAt(ar, EMPTY, items, |body|);
    InstrsAt(ar, EMPTY, items, |body| + 1);
    var code := Instrs(ar, items);
    assert code == code[..|body|] + [code[|body|], code[|body| + 1]];
  }

  // The part of a program that the pass sees: everything before the final return.
  lemma {:induction false} BodySpells(ar: Arith, program: seq<Stmt>, body: seq<Item>)
    requires AcceptsS(Block(program), false) && Faithful(ar, ProgramCode(ar, program))
        && body == CodeS(ar, Scope(true, []), Block(program))
    ensures Spells(ChunkOf(ar, body), Instrs(ar, body))
    ensures OptimizedCode(ar, ProgramCode(ar, program)) ==
            Chunk(EncodeAll(Squash(Instrs(ar, body))) + [3, 46], ChunkOf(ar, body).constants)
  {
    var items := ProgramCode(ar, program);
    assert items == body + ENDING;
    hide ProgramCode, CodeS, AcceptsS, InstrsFrom, WellPlaced, HoleFree, Assemble, EncodeAll, Squash, Fits, Faithful;
    FaithfulSize(ar, items);
    ProgramJumpsLand(ar, program, false);
    SpelledCode(ar, items, false);
    EndingAdds(ar, body);
    var code, last := Instrs(ar, body), [PushNull, ReturnOp];
    forall i | i in code ensures i in Instrs(ar, items) {
      var k :| 0 <= k < |code| && code[k] == i;
      assert Instrs(ar, items)[k] == i;
    }
    AssembleInstrs(ar, EMPTY, body);
    assert [] + EncodeAll(code) == EncodeAll(code);
    OptimizedIs(ar, items);
    SquashLast(code, last);
  }

  lemma {:induction false} SquashLast(code: seq<Instr>, last: seq<Instr>)
    requires last == [PushNull, ReturnOp]
    ensures EncodeAll(Squash(code + last)) == EncodeAll(Squash(code)) + [3, 46]
  {
    hide Encode, Squash;
    SquashSplit(code, last, code + last);
    SquashSame(last);
    EncodeAppend(Squash(code), last);
    EncodeAppend([PushNull], [ReturnOp]);
    EncodeOne(PushNull);
    EncodeOne(ReturnOp);
    assert last == [PushNull] + [ReturnOp];
    EndingBytes();
  }

  lemma EndingBytes()
    ensures Encode(PushNull) + Encode(ReturnOp) == [3, 46]
  {
  }

  // Every function literal of a program fits in its chunk.
  ghost predicate FaithfulFunctions(ar: Arith, program: seq<Stmt>) {
    forall f | f in FunctionsBody(program) :: Faithful(ar, FunctionCode(ar, f))
  }

  /** vm_load_file: the chunk of a program and the chunks of all its function literals, after the pass. */
  method LoadFile(ar: Arith, program: seq<Stmt>) returns (ok: bool, chunk: Chunk, chunks: map<Function, Chunk>)
    requires Faithful(ar, ProgramCode(ar, program)) && FaithfulFunctions(ar, program)
    ensures ok == AcceptsS(Block(program), false)
    ensures ok ==> chunk == OptimizedCode(ar, ProgramCode(ar, program)) && chunks.Keys == FunctionsBody(program)
    ensures ok ==> forall f | f in chunks :: chunks[f] == OptimizedCode(ar, FunctionCode(ar, f))
  {
    hide Assemble, CodeS, AcceptsS, Functions.Compiled, Faithful, ProgramCode, FunctionCode, OptimizedCode, Instrs,
        FunctionsBody;
    hide Squash, EncodeAll, Continues, HolesAt, ScopeS, Spells, HoleFree;
    chunk, chunks := EMPTY, map[];
    var fns := NoFunctions(ar);
    var c := new Compiler(ar, fns, true);
    ok := c.CompileBlock(program);
    if !ok {
      return;
    }
    assert fns.chunks.Keys == FunctionsBody(program);
    ghost var body := CodeS(ar, Scope(true, []), Block(program));
    HoleFreeS(ar, Scope(true, []), Block(program));
    Closed(body, 0, 0, 0);
    BodySpells(ar, program, body);
    chunk := Optimize(c.Code(), Instrs(ar, body));
    OptimizeFunctions(ar, fns);
    chunks := fns.chunks;
    c.bytes := chunk.bytes;
    c.AddByte(3);
    c.AddByte(46);
    chunk := c.Code();
  }
}

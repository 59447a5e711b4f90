/**
 The interpreter from end to end: the text of a file is read into tokens, these are parsed into the arena, the walk
 over the arena finds the tree, the tree is compiled and optimized, and the bytes are run.
 */
module Nur {
  import opened Syntax
  import opened Arithmetic
  import opened Values
  import opened Primitives
  import opened Bytecode
  import opened Assembly
  import opened Vm
  import opened Codegen
  import opened Domain
  import opened Correctness
  import opened Compiler
  import opened Pipeline
  import G = Grammar
  import Arena
  import P = Parser
  import Walking
  import Meanings
  import Printing
  import Scanning
  import Spelling
  import I = Interpreter

  // parse, and the tree that the compiler then meets in the arena.
  method ParseFile(text: seq<Byte>, tokens: seq<P.Tok>, ghost program: seq<Stmt>) returns (tree: seq<Stmt>)
    requires forall t | t in tokens :: P.WellLexed(text, t)
    requires G.ParseProgram(P.LexesOf(tokens)).Tree() == Some(program)
    ensures tree == program
  {
    hide G.ParseProgram, P.WellLexed, P.LexesOf, Arena.DenotesS;
    var parser := new P.Parser(text, tokens);
    var n := parser.Parse();
    var block := Walking.ReadStmt(parser.ast, text, n, Block(program));
    tree := block.body;
  }

  // The world in which a program and its function literals have the code the compiler emits.
  ghost function SourceWorld(ar: Arith, native: (nat, Heap, seq<Value>) -> Res<(Value, Heap)>,
      program: seq<Stmt>): World {
    World(ar, native, f => if f in FunctionsBody(program) then ChunkOf(ar, FunctionCode(ar, f)) else EMPTY,
        f => f in FunctionsBody(program))
  }

  ghost predicate SupportedProgram(ar: Arith, program: seq<Stmt>) {
    FitsProgram(ar, program) && forall f | f in FunctionsBody(program) :: Supported(ar, f)
  }

  /** vm_load_file, then vm_run: where the program means o, the run of what was compiled and optimized from its
      text ends in o. */
  method RunFile(ar: Arith, native: (nat, Heap, seq<Value>) -> Res<(Value, Heap)>, text: seq<Byte>, tokens: seq<P.Tok>,
                 globals: map<Name, Value>, heap: Heap, ghost program: seq<Stmt>, ghost o: Outcome)
    returns (ok: bool, r: I.Signal, vm: I.Interpreter?)
    requires forall t | t in tokens :: P.WellLexed(text, t)
    requires G.ParseProgram(P.LexesOf(tokens)).Tree() == Some(program)
    requires Exact(ar) && SupportedProgram(ar, program)
    requires Clear(SourceWorld(ar, native, program), program, globals, heap)
    requires Means(SourceWorld(ar, native, program), program, globals, heap, o)
    ensures ok == AcceptsS(Block(program), false)
    ensures ok ==> vm != null && vm.Shows(r, o) && !r.Next?
  {
    hide G.ParseProgram, P.WellLexed, P.LexesOf, SourceSide, MachineSide, FitsProgram, Clear, AcceptsS, Run, Supported,
        Exact;
    hide FunctionsBody, OptimizedCode, FunctionCode, ProgramCode, ChunkOf;
    vm, r := null, I.Stopped;
    var tree := ParseFile(text, tokens, program);
    FaithfulProgram(ar, program);
    var chunk, chunks;
    ok, chunk, chunks := LoadFile(ar, tree);
    if !ok {
      return;
    }
    ghost var w := SourceWorld(ar, native, program);
    var w' := World(ar, native, f => if f in chunks then chunks[f] else EMPTY, f => f in chunks);
    var s := State([], Frame(chunk, 0, 0), [], globals, heap);
    Sides(w, w', program, chunks);
    PipelineCorrect(w, w', program, globals, heap, o);
    EndsWell(w, program, globals, heap, o);
    vm := new I.Interpreter(w', s);
    ghost var n: nat :| Vm.Run(w', s, n) == o;
    r := vm.Run(n);
  }

  // What was loaded is the machine side of the program.
  lemma Sides(w: World, w': World, program: seq<Stmt>, chunks: map<Function, Chunk>)
    requires Exact(w.ar) && SupportedProgram(w.ar, program) && w == SourceWorld(w.ar, w.native, program)
    requires chunks.Keys == FunctionsBody(program)
    requires forall f | f in chunks :: chunks[f] == OptimizedCode(w.ar, FunctionCode(w.ar, f))
    requires w'.ar == w.ar && w'.native == w.native && forall f :: w'.codeOf(f) == if f in chunks then chunks[f]
        else EMPTY
    ensures SourceSide(w) && MachineSide(w, w')
  {
    hide FunctionsBody, OptimizedCode, FunctionCode, ChunkOf, Supported, Exact, FitsProgram;
    forall f | w.admits(f) ensures w'.codeOf(f) == OptimizedCode(w.ar, FunctionCode(w.ar, f)) {
      assert f in chunks;
    }
  }

  lemma FaithfulProgram(ar: Arith, program: seq<Stmt>)
    requires SupportedProgram(ar, program)
    ensures Assembly.Faithful(ar, ProgramCode(ar, program)) && FaithfulFunctions(ar, program)
        && FitsProgram(ar, program)
  {
    hide FunctionsBody, FunctionCode, ProgramCode, Assembly.Faithful, AcceptsS;
  }

  lemma EndsWell(w: World, program: seq<Stmt>, globals: map<Name, Value>, heap: Heap, o: Outcome)
    requires Means(w, program, globals, heap, o)
    ensures o.Halted? || o.Error?
  {
  }

  // The text is one of this program: it is written as these tokens, and they are parsed to it.
  ghost predicate Source(text: seq<Byte>, numerals: Spelling.Numerals, ls: seq<G.Lex>, program: seq<Stmt>) {
    Spelling.Written(text, ls, numerals) && G.ParseProgram(ls).Tree() == Some(program)
  }

  /** From text to result: where the text is one of a program that means o, the interpreter accepts the text exactly
      if the compiler accepts the program, and the run then ends in o. */
  method RunText(ar: Arith, native: (nat, Heap, seq<Value>) -> Res<(Value, Heap)>, numerals: Spelling.Numerals,
      text: seq<Byte>, globals: map<Name, Value>, heap: Heap, ghost ls: seq<G.Lex>, ghost program: seq<Stmt>,
      ghost o: Outcome)
    returns (ok: bool, r: I.Signal, vm: I.Interpreter?)
    requires 0 !in text && Source(text, numerals, ls, program)
    requires Exact(ar) && SupportedProgram(ar, program)
    requires Clear(SourceWorld(ar, native, program), program, globals, heap)
    requires Means(SourceWorld(ar, native, program), program, globals, heap, o)
    ensures ok == AcceptsS(Block(program), false)
    ensures ok ==> vm != null && vm.Shows(r, o) && !r.Next?
  {
    hide G.ParseProgram, P.WellLexed, P.LexesOf, SupportedProgram, Clear, AcceptsS, Exact, Means, SourceWorld,
        Spelling.Written;
    var scanned, tokens := Scanning.Scan(text, numerals);
    assert scanned;
    Meanings.WrittenOne(text, ls, P.LexesOf(tokens), numerals);
    ok, r, vm := RunFile(ar, native, text, tokens, globals, heap, program, o);
  }

  /** Formatting a text: whatever was parsed from its tokens, printed and written out with a blank after each token, is
      a text of the same program, and of no other. */
  lemma {:induction false} FormatText(numerals: Spelling.Numerals, ls: seq<G.Lex>, program: seq<Stmt>,
      ss: seq<seq<Byte>>)
    requires G.ParseProgram(ls) == G.Ok(program, [])
    requires Spelling.SpelledAll(Printing.PrintProgram(program), ss, numerals)
    ensures Source(Spelling.Spaced(ss), numerals, Printing.PrintProgram(program), program)
    ensures forall ls', other | 0 !in Spelling.Spaced(ss) && Source(Spelling.Spaced(ss), numerals, ls', other) ::
              other == program
  {
    hide G.ParseProgram, Printing.PrintProgram, Spelling.Written, Spelling.SpelledAll;
    Printing.FormatProgram(ls, program, []);
    var printed, out := Printing.PrintProgram(program), Spelling.Spaced(ss);
    Spelling.SpacedWritten(printed, ss, numerals);
    assert printed + [] == printed;
    forall ls', other | 0 !in out && Source(out, numerals, ls', other) ensures other == program {
      Meanings.WrittenOne(out, printed, ls', numerals);
    }
  }
}

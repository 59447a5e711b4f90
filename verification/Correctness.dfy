/**
 The compiler is correct on whole programs: the machine halts with a result, reports an error, or runs for
 ever exactly when the program does.
 */
module Correctness {
  import opened Syntax
  import opened Arithmetic
  import opened Values
  import opened Primitives
  import opened Bytecode
  import opened Assembly
  import opened Codegen
  import opened Domain
  import opened Vm
  import opened Semantics
  import opened Scoping
  import opened Machine
  import opened Instructions
  import opened Runs
  import opened Simulation

  // What the source says of a program, given fuel for that many repetitions of each loop.
  function Meaning(w: World, program: seq<Stmt>, globals: map<Name, Value>, heap: Heap, fuel: nat): Result<Completion> {
    Exec(w, true, fuel, 1, Block(program), Store([], globals, heap))
  }

  // vm_load_file: a frame at the first byte and an empty stack.
  function Initial(w: World, program: seq<Stmt>, globals: map<Name, Value>, heap: Heap): State {
    State([], Frame(ChunkOf(w.ar, ProgramCode(w.ar, program)), 0, 0), [], globals, heap)
  }

  // How the machine ends when the program ends in r.
  function EndOf(r: Result<Completion>): Outcome {
    match r
    case Ok(Returned(v), st) => Halted(v, st.globals, st.heap)
    case Ok(_, st) => Halted(Null, st.globals, st.heap)
    case Stopped(Failure) => Outcome.Error
    case Stopped(_) => Beyond
  }

  predicate Defined(r: Result<Completion>) {
    r.Ok? || r.why == Failure
  }

  lemma ProgramRun(w: World, program: seq<Stmt>, globals: map<Name, Value>, heap: Heap, fuel: nat) returns (n: nat)
    requires Sound(w) && FitsProgram(w.ar, program)
    ensures var r, o := Meaning(w, program, globals, heap, fuel), Run(w, Initial(w, program, globals, heap), n);
            && (Defined(r) ==> o == EndOf(r))
            && (r == Stopped(OutOfFuel) ==> o.Running? && n >= fuel)
  {
    hide Conf, Offset, At, Step, Exact, Faithful, CodeS, Exec, ChunkOf, Image, FitsS;
    var code := CodeS(w.ar, Scope(true, []), Block(program));
    var x := Activation(ProgramCode(w.ar, program), [], []);
    var sc, st := Scope(true, []), Store([], globals, heap);
    ProgramReady(w, x, program, st);
    var s0, k := Conf(w, x, 0, [], st), |code|;
    var m := SimS(w, x, 0, sc, Block(program), None, 0, 0, fuel, st);
    ScopeOfS(w, fuel, 1, Block(program), sc, None, st);
    var r := Meaning(w, program, globals, heap, fuel);
    n := m;
    if r.Ok? && r.value.Normal? {
      SimplePush(w, x, k, PushNull, Null, [], r.store);
      ImageOk(w, x, Offset(x.items, k + 1), [], Null, r.store);
      RunStep(w, s0, m, Conf(w, x, Offset(x.items, k), [], r.store));
      HaltStep(w, x, k + 1, Null, r.store);
      RunStep(w, s0, m + 1, Conf(w, x, Offset(x.items, k + 1), [Null], r.store));
      n := m + 2;
    } else if r.Ok? {
      var j: nat, env :| Returns(w, x, s0, m, r.value.value, r.store, j, env);
      AtBound(x.items, j, [Plain(ReturnOp)]);
      HaltStep(w, x, j, r.value.value, r.store.(env := env));
      RunStep(w, s0, m, Conf(w, x, Offset(x.items, j), [r.value.value], r.store.(env := env)));
      n := m + 1;
    }
  }

  lemma ProgramReady(w: World, x: Activation, program: seq<Stmt>, st: Store)
    requires Sound(w) && FitsProgram(w.ar, program) && x == Activation(ProgramCode(w.ar, program), [], [])
        && st.env == []
    ensures var sc, code := Scope(true, []), CodeS(w.ar, Scope(true, []), Block(program));
            && Wellformed(w, x) && ReadyS(w, x, 0, code, sc, st, None, 0, 0) && FitsS(sc, Block(program), None)
            && At(x.items, |code|, [Plain(PushNull)]) && At(x.items, |code| + 1, [Plain(ReturnOp)])
            && Conf(w, x, Offset(x.items, 0), [], st) == Initial(w, program, st.globals, st.heap) == Conf(w, x, 0, [],
                st)
  {
    hide Exact, Faithful, FitsS, CodeS, ChunkOf;
    var code := CodeS(w.ar, Scope(true, []), Block(program));
    assert x.items[..|code|] == code && x.items[|code|..] == ENDING;
    assert x.items[|code|] == ENDING[0] && x.items[|code| + 1] == ENDING[1];
    assert x.items[..0] == [];
    assert Names(st.env) == [] && ValuesOf(st.env) == [];
  }

  // ----- both directions -----

  ghost predicate Means(w: World, program: seq<Stmt>, globals: map<Name, Value>, heap: Heap, o: Outcome) {
    exists fuel: nat :: Defined(Meaning(w, program, globals, heap, fuel))
        && EndOf(Meaning(w, program, globals, heap, fuel)) == o
  }

  // The program never gets to a construct whose result this model does not fix.
  ghost predicate Clear(w: World, program: seq<Stmt>, globals: map<Name, Value>, heap: Heap) {
    forall fuel: nat :: Meaning(w, program, globals, heap, fuel) != Stopped(Unclear)
  }

  // The machine ends in o exactly when the program does.
  lemma CompilerCorrect(w: World, program: seq<Stmt>, globals: map<Name, Value>, heap: Heap, o: Outcome)
    requires Sound(w) && FitsProgram(w.ar, program) && Clear(w, program, globals, heap)
    ensures Ends(w, Initial(w, program, globals, heap), o) <==> Means(w, program, globals, heap, o)
  {
    hide Sound, FitsProgram, Initial, Meaning, EndOf, Run;
    var s := Initial(w, program, globals, heap);
    if Ends(w, s, o) {
      var n: nat :| Run(w, s, n) == o;
      var r := Meaning(w, program, globals, heap, n);
      var m := ProgramRun(w, program, globals, heap, n);
      if r == Stopped(OutOfFuel) {
        RunsOn(w, s, m, n);
      } else {
        EndOfDefined(r);
        RunOnce(w, s, n, m);
      }
    }
    if Means(w, program, globals, heap, o) {
      var fuel: nat :| Defined(Meaning(w, program, globals, heap, fuel))
          && EndOf(Meaning(w, program, globals, heap, fuel)) == o;
      EndOfDefined(Meaning(w, program, globals, heap, fuel));
      var m := ProgramRun(w, program, globals, heap, fuel);
    }
  }

  lemma EndOfDefined(r: Result<Completion>)
    ensures !EndOf(r).Running?
  {
  }

  ghost predicate Diverges(w: World, program: seq<Stmt>, globals: map<Name, Value>, heap: Heap) {
    forall fuel: nat :: Meaning(w, program, globals, heap, fuel) == Stopped(OutOfFuel)
  }

  lemma NotDefined(r: Result<Completion>)
    requires !Defined(r) && r != Stopped(Unclear)
    ensures r == Stopped(OutOfFuel)
  {
  }

  // The machine runs for ever exactly when no amount of fuel is enough.
  lemma DivergencePreserved(w: World, program: seq<Stmt>, globals: map<Name, Value>, heap: Heap)
    requires Sound(w) && FitsProgram(w.ar, program) && Clear(w, program, globals, heap)
    ensures RunsForEver(w, Initial(w, program, globals, heap)) <==> Diverges(w, program, globals, heap)
  {
    hide Sound, FitsProgram, Initial, Meaning, EndOf, Run, Defined;
    var s := Initial(w, program, globals, heap);
    if Diverges(w, program, globals, heap) {
      forall n: nat ensures Run(w, s, n).Running? {
        var m := ProgramRun(w, program, globals, heap, n);
        assert Meaning(w, program, globals, heap, n) == Stopped(OutOfFuel);
        RunsOn(w, s, m, n);
      }
    }
    if RunsForEver(w, s) {
      forall fuel: nat ensures Meaning(w, program, globals, heap, fuel) == Stopped(OutOfFuel) {
        var r := Meaning(w, program, globals, heap, fuel);
        var m := ProgramRun(w, program, globals, heap, fuel);
        EndOfDefined(r);
        assert Run(w, s, m).Running?;
        NotDefined(r);
      }
    }
  }

  // ----- the premises can be met -----

  function ToInt(d: Double): int {
    d.bits - 0x8000_0000_0000_0000
  }

  function Clamp(i: int): int {
    var most := 0x7fff_ffff_ffff_ffff;
    if i > most then most else if i < -most then -most else i
  }

  function OfInt(i: int): Double {
    Double(Clamp(i) + 0x8000_0000_0000_0000)
  }

  // Doubles that hold integers only, and the largest for all that are larger.
  const INTEGER_ARITHMETIC: Arith := Arith(
    (a, b) => OfInt(ToInt(a) + ToInt(b)),
    (a, b) => OfInt(ToInt(a) - ToInt(b)),
    (a, b) => OfInt(ToInt(a) * ToInt(b)),
    (a, b) => if ToInt(b) == 0 then a else OfInt(ToInt(a) / ToInt(b)),
    (a, b) => if ToInt(b) == 0 then a else OfInt(ToInt(a) % ToInt(b)),
    (a, b) => if ToInt(b) < 0 then a else OfInt(Power(ToInt(a), ToInt(b))),
    a => OfInt(-ToInt(a)),
    (a, b) => a == b,
    (a, b) => ToInt(a) < ToInt(b),
    (a, b) => ToInt(a) <= ToInt(b),
    a => ToInt(a) == 0,
    OfInt,
    ToInt,
    a => Some(ToInt(a)),
    a => []
  )

  lemma OfIntExact(i: int)
    requires Small(i)
    ensures ToInt(OfInt(i)) == i
  {
  }

  lemma IntegerBinaryExact(op: BinaryOp, a: nat, b: nat)
    requires Small(a) && Small(b)
    ensures ExactAt(INTEGER_ARITHMETIC, op, a, b)
  {
    hide OfInt, ToInt, Power;
    OfIntExact(a);
    OfIntExact(b);
  }

  lemma IntegerArithmeticExact()
    ensures Exact(INTEGER_ARITHMETIC)
  {
    hide ExactAt, ExactUnary;
    var ar := INTEGER_ARITHMETIC;
    forall op, a: nat, b: nat | Small(a) && Small(b) ensures ExactAt(ar, op, a, b) {
      IntegerBinaryExact(op, a, b);
    }
    forall a | Small(a) ensures ExactUnary(ar, a) {
      IntegerUnaryExact(a);
    }
  }

  lemma IntegerArithmeticSigned()
    ensures Signed(INTEGER_ARITHMETIC)
  {
    hide OfInt, ToInt;
    forall i: int | 0 < i ensures INTEGER_ARITHMETIC.neg(INTEGER_ARITHMETIC.ofInt(i)) == INTEGER_ARITHMETIC.ofInt(-i) {
      OfIntSign(i);
    }
    forall i: int, j: int | i < 0 < j ensures INTEGER_ARITHMETIC.ofInt(i) != INTEGER_ARITHMETIC.ofInt(j) {
      OfIntSign(i);
      OfIntSign(j);
    }
  }

  lemma OfIntSign(i: int)
    ensures (ToInt(OfInt(i)) < 0 <==> i < 0) && OfInt(-ToInt(OfInt(i))) == OfInt(-i)
  {
  }

  lemma IntegerUnaryExact(a: int)
    requires Small(a)
    ensures ExactUnary(INTEGER_ARITHMETIC, a)
  {
    hide OfInt, ToInt;
    OfIntExact(a);
    OfIntExact(0);
  }
}

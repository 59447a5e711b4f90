/**
 One text through all stages: `return 1+2*3` meets every premise of Nur.RunText, with the result 7.
 */
module Example {
  import opened Syntax
  import opened Arithmetic
  import opened Values
  import opened Primitives
  import opened Vm
  import opened Codegen
  import opened Domain
  import opened Semantics
  import opened Correctness
  import opened Strength
  import Compiler
  import Formats
  import Nur
  import Pratt
  import Sample
  import Spelling
  import G = Grammar

  const TEXT: seq<Byte> := [114, 101, 116, 117, 114, 110, 32, 49, 43, 50, 42, 51]

  const SUM: seq<G.Lex> :=
    [G.IntLit(Some(1)), G.OpTok(Add), G.IntLit(Some(2)), G.OpTok(Mul), G.IntLit(Some(3))]

  const PRODUCT: Expr := Binary(Mul, Expr.Int(2), Expr.Int(3))

  const PROGRAM: seq<Stmt> := [Return(Binary(Add, Expr.Int(1), PRODUCT))]

  // ----- the text -----

  // The token in front of a text, perhaps after a blank.
  lemma {:induction false} OneMore(b: seq<Byte>, i: nat, j: nat, k: nat, t: G.Lex, ts: seq<G.Lex>,
      numerals: Spelling.Numerals)
    requires i <= j < k <= |b| && (i == j || (b[i] == 32 && j == i + 1))
    requires Spelling.Spelled(t, b[j..k], numerals) && Spelling.Apart(t, b[j..k], Spelling.ByteAt(b, k))
    requires Spelling.WrittenFrom(b, k, ts, numerals)
    ensures Spelling.WrittenFrom(b, i, [t] + ts, numerals)
  {
    hide Spelling.Spelled, Spelling.Apart;
    var us := [t] + ts;
    assert us[0] == t && us[1..] == ts;
    assert i < j ==> Spelling.Gap(b, i + 1, j);
    assert Spelling.StandsAt(b, i, j, k, us[0], numerals);
  }

  // One digit, in front of an operator or the end.
  lemma Digit(n: Bits64, c: Byte, next: Byte, numerals: Spelling.Numerals)
    requires 48 <= c <= 57 && numerals.integer([c]) == Some(n) && next in {0, 42, 43}
    ensures Spelling.Spelled(G.IntLit(Some(n)), [c], numerals) && Spelling.Apart(G.IntLit(Some(n)), [c], next)
  {
  }

  lemma Marks(numerals: Spelling.Numerals)
    ensures Spelling.Spelled(G.OpTok(Add), [43], numerals) && Spelling.Apart(G.OpTok(Add), [43], 50)
    ensures Spelling.Spelled(G.OpTok(Mul), [42], numerals) && Spelling.Apart(G.OpTok(Mul), [42], 51)
    ensures Spelling.Spelled(G.ReturnTok, [114, 101, 116, 117, 114, 110], numerals)
    ensures Spelling.Apart(G.ReturnTok, [114, 101, 116, 117, 114, 110], 32)
  {
  }

  lemma {:induction false} IsWritten(numerals: Spelling.Numerals)
    requires numerals.integer([49]) == Some(1) && numerals.integer([50]) == Some(2) && numerals.integer([51]) == Some(3)
    ensures Spelling.Written(TEXT, [G.ReturnTok] + SUM, numerals)
  {
    hide Spelling.WrittenFrom, Spelling.Spelled, Spelling.Apart;
    End(numerals);
    Digit(1, 49, 43, numerals);
    Digit(2, 50, 42, numerals);
    Digit(3, 51, 0, numerals);
    Marks(numerals);
    assert TEXT[11..12] == [51] && TEXT[10..11] == [42] && TEXT[9..10] == [50];
    assert TEXT[8..9] == [43] && TEXT[7..8] == [49] && TEXT[0..6] == [114, 101, 116, 117, 114, 110];
    assert [SUM[4]] + [] == SUM[4..] && [SUM[3]] + SUM[4..] == SUM[3..] && [SUM[2]] + SUM[3..] == SUM[2..];
    assert [SUM[1]] + SUM[2..] == SUM[1..] && [SUM[0]] + SUM[1..] == SUM;
    OneMore(TEXT, 11, 11, 12, SUM[4], [], numerals);
    OneMore(TEXT, 10, 10, 11, SUM[3], SUM[4..], numerals);
    OneMore(TEXT, 9, 9, 10, SUM[2], SUM[3..], numerals);
    OneMore(TEXT, 8, 8, 9, SUM[1], SUM[2..], numerals);
    OneMore(TEXT, 6, 7, 8, SUM[0], SUM[1..], numerals);
    OneMore(TEXT, 0, 0, 6, G.ReturnTok, SUM, numerals);
  }

  lemma End(numerals: Spelling.Numerals)
    ensures Spelling.WrittenFrom(TEXT, 12, [], numerals)
  {
  }

  lemma {:induction false} IsParsed()
    ensures G.ParseProgram([G.ReturnTok] + SUM) == G.Ok(PROGRAM, [])
  {
    hide Pratt.Spells, G.ParseStmt;
    var a, b, c := Expr.Int(1), Expr.Int(2), Expr.Int(3);
    assert Operand([SUM[0]], a, false) && Operand([SUM[2]], b, false) && Operand([SUM[4]], c, true);
    StrongerFirst([SUM[0]], Add, [SUM[2]], Mul, [SUM[4]], a, b, c);
    assert [SUM[0]] + [G.OpTok(Add)] + [SUM[2]] + [G.OpTok(Mul)] + [SUM[4]] == SUM;
    assert G.ParseProgram([]) == G.Ok([], []);
    assert PROGRAM == PROGRAM + [];
  }

  // ----- the program -----

  lemma {:induction false} IsSupported(ar: Arith)
    requires forall x, y :: ar.eq(x, y) ==> x == y
    ensures Nur.SupportedProgram(ar, PROGRAM) && Compiler.AcceptsS(Block(PROGRAM), false)
  {
    hide Assembly.Faithful;
    var top := Scope(true, []);
    assert FitsE(top, Binary(Add, Expr.Int(1), PRODUCT), false);
    assert FitsS(top, PROGRAM[0], None) && PROGRAM[1..] == [];
    assert |CodeE(ar, top, PRODUCT)| == 1;
    assert |CodeS(ar, top, PROGRAM[0])| == 4 && ScopeS(top, PROGRAM[0]) == top;
    Sample.BodySize(ar, top, PROGRAM[0], []);
    Sample.BodyNext(top, PROGRAM[0], [], None);
    Sample.BlockSize(ar, top, PROGRAM);
    assert [PROGRAM[0]] + [] == PROGRAM;
    Formats.ShortFaithful(ar, top, Block(PROGRAM));
    assert Compiler.FunctionsBody(PROGRAM) == {};
  }

  lemma {:induction false} Computes(w: World, globals: map<Name, Value>, heap: Heap, fuel: nat)
    requires Exact(w.ar)
    ensures Meaning(w, PROGRAM, globals, heap, fuel) ==
            Semantics.Ok(Returned(Num(w.ar.ofInt(7))), Store([], globals, heap))
  {
    var st := Store([], globals, heap);
    assert ExactAt(w.ar, Mul, 2, 3) && ExactAt(w.ar, Add, 1, 6);
    hide Exact;
    assert Eval(w, true, fuel, 1, PRODUCT, st) == Semantics.Ok(Num(w.ar.ofInt(6)), st);
    assert Eval(w, true, fuel, 1, PROGRAM[0].result, st) == Semantics.Ok(Num(w.ar.ofInt(7)), st);
    assert Exec(w, true, fuel, 1, PROGRAM[0], st) == Semantics.Ok(Returned(Num(w.ar.ofInt(7))), st);
    assert ExecAll(w, true, fuel, 1, PROGRAM, st) == Semantics.Ok(Returned(Num(w.ar.ofInt(7))), st);
  }

  /** Every premise of Nur.RunText holds of this text, and the outcome is 7, with globals and heap as before. */
  lemma {:induction false} SevenFromText(ar: Arith, native: (nat, Heap, seq<Value>) -> Res<(Value, Heap)>,
      numerals: Spelling.Numerals, globals: map<Name, Value>, heap: Heap)
    requires Exact(ar) && forall x, y :: ar.eq(x, y) ==> x == y
    requires numerals.integer([49]) == Some(1) && numerals.integer([50]) == Some(2) && numerals.integer([51]) == Some(3)
    ensures 0 !in TEXT && Nur.Source(TEXT, numerals, [G.ReturnTok] + SUM, PROGRAM)
    ensures Nur.SupportedProgram(ar, PROGRAM) && Compiler.AcceptsS(Block(PROGRAM), false)
    ensures var w := Nur.SourceWorld(ar, native, PROGRAM);
            && Clear(w, PROGRAM, globals, heap)
            && Means(w, PROGRAM, globals, heap, Halted(Num(ar.ofInt(7)), globals, heap))
  {
    hide G.ParseProgram, Spelling.Written, Nur.SupportedProgram, Compiler.AcceptsS, Meaning, Exact;
    IsWritten(numerals);
    IsParsed();
    IsSupported(ar);
    var w := Nur.SourceWorld(ar, native, PROGRAM);
    forall fuel: nat ensures Meaning(w, PROGRAM, globals, heap, fuel) ==
        Semantics.Ok(Returned(Num(w.ar.ofInt(7))), Store([], globals, heap)) {
      Computes(w, globals, heap, fuel);
    }
    assert Defined(Meaning(w, PROGRAM, globals, heap, 0));
  }
}

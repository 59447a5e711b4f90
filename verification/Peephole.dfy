/**
 chunk_optimize (src/compiler.c): drops every Dup that is followed by a Pop, together with that Pop, and
 copies all other bytes, jump operands included. A jump keeps its target exactly when it jumps over no
 dropped pair.
 */
module Peephole {
  import opened Syntax
  import opened Arithmetic
  import opened Values
  import opened Bytecode

  function EncodeAll(code: seq<Instr>): seq<Byte> {
    if code == [] then [] else Encode(code[0]) + EncodeAll(code[1..])
  }

  lemma {:induction false} EncodeAppend(a: seq<Instr>, b: seq<Instr>)
    ensures EncodeAll(a + b) == EncodeAll(a) + EncodeAll(b)
  {
    hide Encode;
    if a == [] {
      assert a + b == b;
    } else {
      EncodeAppend(a[1..], b);
      assert (a + b)[1..] == a[1..] + b;
    }
  }

  lemma {:induction false} EncodeOne(i: Instr)
    ensures EncodeAll([i]) == Encode(i)
  {
    hide Encode;
    assert [i][1..] == [];
  }

  // The byte address of instruction k.
  function Address(code: seq<Instr>, k: nat): nat
    requires k <= |code|
  {
    |EncodeAll(code[..k])|
  }

  lemma {:induction false} AddressNext(code: seq<Instr>, k: nat)
    requires k < |code|
    ensures Address(code, k + 1) == Address(code, k) + Width(code[k]) <= |EncodeAll(code)|
    ensures EncodeAll(code)[Address(code, k)..Address(code, k + 1)] == Encode(code[k])
    ensures EncodeAll(code[..k + 1]) == EncodeAll(code[..k]) + Encode(code[k])
  {
    hide Encode;
    assert code[..k + 1] == code[..k] + [code[k]] && code == code[..k + 1] + code[k + 1..];
    EncodeAppend(code[..k], [code[k]]);
    EncodeAppend(code[..k + 1], code[k + 1..]);
    EncodeOne(code[k]);
    EncodeWidth(code[k]);
  }

  // ----- what is dropped -----

  predicate PairAt(code: seq<Instr>, k: nat) {
    k + 1 < |code| && code[k] == Dup && code[k + 1] == Pop
  }

  // Between the two instructions of a pair.
  predicate Inside(code: seq<Instr>, k: nat) {
    0 < k && PairAt(code, k - 1)
  }

  function Squash(code: seq<Instr>): seq<Instr> {
    if code == [] then []
    else if PairAt(code, 0) then Squash(code[2..])
    else [code[0]] + Squash(code[1..])
  }

  lemma {:induction false} SquashSplit(a: seq<Instr>, b: seq<Instr>, code: seq<Instr>)
    requires code == a + b && !Inside(code, |a|)
    ensures Squash(code) == Squash(a) + Squash(b)
    decreases |a|
  {
    if a == [] {
      assert code == b;
    } else if PairAt(code, 0) {
      assert |a| >= 2;
      assert code[2..] == a[2..] + b;
      SquashSplit(a[2..], b, code[2..]);
    } else {
      assert code[1..] == a[1..] + b;
      SquashSplit(a[1..], b, code[1..]);
    }
  }

  // The code before instruction k, squashed: where instruction k ends up.
  function Before(code: seq<Instr>, k: nat): seq<Instr>
    requires k <= |code|
  {
    Squash(code[..k])
  }

  lemma {:induction false} BeforeNext(code: seq<Instr>, k: nat)
    requires k < |code| && !Inside(code, k)
    ensures Before(code, k + 1) == Before(code, k) + [code[k]]
  {
    assert code[..k + 1] == code[..k] + [code[k]];
    SquashSplit(code[..k], [code[k]], code[..k + 1]);
    assert [code[k]][1..] == [];
  }

  lemma {:induction false} BeforePair(code: seq<Instr>, k: nat)
    requires PairAt(code, k)
    ensures Before(code, k + 2) == Before(code, k)
  {
    assert code[..k + 2] == code[..k] + [Dup, Pop];
    SquashSplit(code[..k], [Dup, Pop], code[..k + 2]);
    assert [Dup, Pop][2..] == [];
    assert Squash([Dup, Pop]) == [];
  }

  // A kept instruction is found where Before says.
  lemma {:induction false} SquashAt(code: seq<Instr>, k: nat)
    requires k <= |code| && !Inside(code, k)
    ensures Before(code, k) <= Squash(code)
    ensures k < |code| && !PairAt(code, k) ==>
              |Before(code, k)| < |Squash(code)| && Squash(code)[|Before(code, k)|] == code[k]
  {
    assert code == code[..k] + code[k..];
    SquashSplit(code[..k], code[k..], code);
  }

  // ----- distances -----

  function Pairs(code: seq<Instr>): nat {
    if code == [] then 0
    else if PairAt(code, 0) then 1 + Pairs(code[2..])
    else Pairs(code[1..])
  }

  lemma {:induction false} SquashedLength(code: seq<Instr>)
    ensures |EncodeAll(Squash(code))| + 2 * Pairs(code) == |EncodeAll(code)|
    decreases |code|
  {
    if code == [] {
    } else if PairAt(code, 0) {
      SquashedLength(code[2..]);
      assert code[1..][1..] == code[2..];
    } else {
      SquashedLength(code[1..]);
      assert ([code[0]] + Squash(code[1..]))[1..] == Squash(code[1..]);
    }
  }

  /** The distance between two instructions that are kept shrinks by two bytes for every pair between them;
      so the operand of a jump is still right exactly when there is none. */
  lemma {:induction false} DistanceKept(code: seq<Instr>, lo: nat, hi: nat)
    requires lo <= hi <= |code| && !Inside(code, lo) && !Inside(code, hi)
    ensures |EncodeAll(Before(code, hi))| - |EncodeAll(Before(code, lo))| == Address(code, hi) - Address(code,
        lo) - 2 * Pairs(code[lo..hi])
  {
    var a, b := code[..lo], code[lo..hi];
    assert code[..hi] == a + b;
    SquashSplit(a, b, code[..hi]);
    EncodeAppend(Squash(a), Squash(b));
    EncodeAppend(a, b);
    SquashedLength(b);
  }

  lemma {:induction false} NoPairs(code: seq<Instr>)
    ensures Pairs(code) == 0 <==> forall k: nat :: !PairAt(code, k)
    decreases |code|
  {
    if code == [] {
    } else if PairAt(code, 0) {
    } else {
      NoPairs(code[1..]);
      assert forall k: nat :: PairAt(code[1..], k) == PairAt(code, k + 1);
      assert forall k: nat | PairAt(code, k) :: k > 0 && PairAt(code[1..], k - 1);
    }
  }

  // ----- the pass over the bytes -----

  // How many bytes the pass copies for the instruction at ip; None where it stops with an assertion.
  function Copied(constants: seq<Value>, bytes: seq<Byte>, ip: nat): Option<nat>
    requires ip < |bytes|
  {
    var op := bytes[ip];
    if op in {1, 2, 3, 4, 5, 13, 17, 18, 23, 24, 25, 26, 27, 28, 46} || 29 <= op <= 40 then Some(1)
    else if op in {7, 8, 10, 11, 19, 41} then Some(2)
    else if op in {6, 9, 12, 14, 15, 42, 44, 45} then Some(3)
    else if op == 16 then Some(4)
    else if op in {20, 21} then Some(5)
    else if op == 22 && ip + 3 <= |bytes| then
      var k := ShortAt(bytes, ip + 1);
      if k < |constants| && constants[k].FunctionObj? then
        var n: int := constants[k].upvalues;
        Some(3 + 2 * n)
      else None
    else None
  }

  // The bytes of a chunk are these instructions, all of them known to the pass.
  ghost predicate Spells(chunk: Chunk, code: seq<Instr>) {
    chunk.bytes == EncodeAll(code) && forall i | i in code :: Fits(chunk.constants, i) && !i.JumpIfFalse?
  }

  lemma {:induction false} StandsThere(chunk: Chunk, code: seq<Instr>, k: nat)
    requires Spells(chunk, code) && k < |code|
    ensures StandsAt(chunk, Address(code, k), code[k])
  {
    AddressNext(code, k);
    EncodeWidth(code[k]);
    assert code[k] in code;
  }

  // The pass agrees with the emitter and the machine on the width of every instruction.
  lemma {:induction false} CopiedWidth(chunk: Chunk, ip: nat, i: Instr)
    requires StandsAt(chunk, ip, i) && !i.JumpIfFalse? && i != Pop
    ensures Copied(chunk.constants, chunk.bytes, ip) == Some(Width(i))
  {
    hide Encode, Copied, Width;
    var e := Encode(i);
    assert chunk.bytes[ip] == chunk.bytes[ip..ip + |e|][0] == e[0];
    if i.MakeClosure? {
      CopiedClosure(chunk, ip, i, e);
    } else {
      CopiedFlat(chunk, ip, i);
    }
  }

  lemma CopiedFlat(chunk: Chunk, ip: nat, i: Instr)
    requires ip < |chunk.bytes| && chunk.bytes[ip] == Encode(i)[0] && !i.MakeClosure? && !i.JumpIfFalse? && i != Pop
    ensures Copied(chunk.constants, chunk.bytes, ip) == Some(Width(i))
  {
  }

  lemma CopiedClosure(chunk: Chunk, ip: nat, i: Instr, e: seq<Byte>)
    requires StandsAt(chunk, ip, i) && i.MakeClosure? && e == Encode(i)
    ensures Copied(chunk.constants, chunk.bytes, ip) == Some(Width(i))
  {
    hide ShortBytes, ShortAt;
    var k := ShortBytes(i.k);
    ShortLength(i.k);
    assert e == [22] + (k + i.descriptors);
    assert e[1..3] == k;
    var here := chunk.bytes[ip..ip + |e|];
    assert here[0] == 22 && chunk.bytes[ip] == here[0];
    assert here[1..3] == e[1..3];
    assert chunk.bytes[ip + 1] == here[1] && chunk.bytes[ip + 2] == here[2];
    assert chunk.bytes[ip + 1..ip + 3] == here[1..3];
    ShortRead(chunk.bytes, ip + 1, i.k);
  }

  method Optimize(chunk: Chunk, ghost code: seq<Instr>) returns (r: Chunk)
    requires Spells(chunk, code)
    ensures r == Chunk(EncodeAll(Squash(code)), chunk.constants)
  {
    hide Encode, Squash, EncodeAll, Copied, Fits;
    var bytes := chunk.bytes;
    var out: seq<Byte>, ip, opcode := [], 0, 255;
    ghost var k := 0;
    NothingBefore(code);
    while ip < |bytes|
      invariant k <= |code| && ip == Address(code, k) <= |bytes| && out == EncodeAll(Before(code, k))
      invariant opcode == 1 <==> k > 0 && code[k - 1] == Dup
      decreases |bytes| - ip
    {
      AtEnd(code, k);
      AddressNext(code, k);
      StandsThere(chunk, code, k);
      FirstByte(chunk, ip, code[k]);
      var previous := opcode;
      opcode := bytes[ip];
      if opcode == 0 {
        if previous == 1 {
          DropDup(code, k);
          out := out[..|out| - 1];
        } else {
          KeepInstr(code, k);
          out := out + [0];
        }
        ip := ip + 1;
      } else {
        CopiedWidth(chunk, ip, code[k]);
        var n := Copied(chunk.constants, bytes, ip).value;
        out := CopyBytes(bytes, ip, n, out);
        KeepInstr(code, k);
        ip := ip + n;
      }
      k := k + 1;
    }
    AtEnd(code, k);
    assert code[..k] == code;
    r := Chunk(out, chunk.constants);
  }

  method CopyBytes(bytes: seq<Byte>, ip: nat, n: nat, out: seq<Byte>) returns (r: seq<Byte>)
    requires ip + n <= |bytes|
    ensures r == out + bytes[ip..ip + n]
  {
    r := out;
    var j := 0;
    while j < n
      invariant j <= n && r == out + bytes[ip..ip + j]
    {
      r := r + [bytes[ip + j]];
      j := j + 1;
    }
  }

  lemma {:induction false} NothingBefore(code: seq<Instr>)
    ensures Address(code, 0) == 0 && Before(code, 0) == [] && EncodeAll([]) == []
  {
    assert code[..0] == [];
  }

  lemma {:induction false} AtEnd(code: seq<Instr>, k: nat)
    requires k <= |code|
    ensures Address(code, k) < |EncodeAll(code)| <==> k < |code|
  {
    if k < |code| {
      AddressNext(code, k);
      WidthPositive(code[k]);
    } else {
      assert code[..k] == code;
    }
  }

  lemma WidthPositive(i: Instr)
    ensures Width(i) >= 1
  {
  }

  lemma {:induction false} FirstByte(chunk: Chunk, ip: nat, i: Instr)
    requires StandsAt(chunk, ip, i)
    ensures (chunk.bytes[ip] == 0 <==> i == Pop) && (chunk.bytes[ip] == 1 <==> i == Dup)
    ensures i == Pop ==> Encode(i) == [0] && Width(i) == 1
  {
    assert chunk.bytes[ip] == chunk.bytes[ip..ip + |Encode(i)|][0];
  }

  lemma {:induction false} KeepInstr(code: seq<Instr>, k: nat)
    requires k < |code| && !Inside(code, k)
    ensures EncodeAll(Before(code, k + 1)) == EncodeAll(Before(code, k)) + Encode(code[k])
  {
    hide Encode, Before;
    BeforeNext(code, k);
    EncodeAppend(Before(code, k), [code[k]]);
    EncodeOne(code[k]);
  }

  lemma {:induction false} DropDup(code: seq<Instr>, k: nat)
    requires 0 < k < |code| && code[k] == Pop && code[k - 1] == Dup
    ensures EncodeAll(Before(code, k)) == EncodeAll(Before(code, k + 1)) + [1]
  {
    hide Before;
    KeepInstr(code, k - 1);
    BeforePair(code, k - 1);
  }
}

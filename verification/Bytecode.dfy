/**
 Chunks of bytecode (src/vm.h): instructions with their operands, the bytes that encode them, and the
 constant pool. Opcode numbers follow the order of the OpCode enumeration.
 */
module Bytecode {
  import opened Syntax
  import opened Arithmetic
  import opened Values

  type Short = x: int | 0 <= x < 0x1_0000
  type Word = x: int | 0 <= x < 0x1_0000_0000

  datatype Instr =
    | Pop | Dup | Swp | PushNull | PushTrue | PushFalse
    | PushConst(k: Short)
    | GetLocal(slot: Byte) | SetLocal(slot: Byte) | SetLocalWithMath(op: Byte, slot: Byte)
    | GetUpvalue(slot: Byte) | SetUpvalue(slot: Byte) | SetUpvalueWithMath(op: Byte, slot: Byte) | CloseUpvalue
    | GetGlobal(k: Short) | SetGlobal(k: Short) | SetGlobalWithMath(op: Byte, k: Short)
    | GetSub | SetSub | SetSubWithMath(op: Byte)
    | MakeArray(count: Word) | MakeMap(count: Word)
    | MakeClosure(k: Short, descriptors: seq<Byte>) // two bytes a captured variable
    | MakeSlice | MakeSliceAbove | MakeSliceUnder | CopyBySlicing
    | Negate | LogicalNot
    | Operate(bop: BinaryOp)
    | CallOp(argc: Byte)
    | PopJumpIfFalse(offset: Short) | JumpIfFalse(offset: Short) | Jump(offset: Short) | Loop(offset: Short)
    | ReturnOp

  const OP_BINARY: Byte := 29 // OP_ADD, the first of the twelve binary operators

  function OpByte(op: BinaryOp): Byte {
    OP_BINARY + (match op
                 case Add => 0 case Sub => 1 case Mul => 2 case Div => 3 case Pow => 4 case Mod => 5
                 case Eql => 6 case Neq => 7 case Lt => 8 case Gt => 9 case Lte => 10 case Gte => 11)
  }

  function OpOf(b: Byte): Option<BinaryOp> {
    match b
    case 29 => Some(Add) case 30 => Some(Sub) case 31 => Some(Mul) case 32 => Some(Div)
    case 33 => Some(Pow) case 34 => Some(Mod) case 35 => Some(Eql) case 36 => Some(Neq)
    case 37 => Some(Lt) case 38 => Some(Gt) case 39 => Some(Lte) case 40 => Some(Gte)
    case _ => None
  }

  function ShortBytes(n: Short): seq<Byte> {
    [n / 0x100, n % 0x100]
  }

  function WordBytes(n: Word): seq<Byte> {
    [n / 0x100_0000, n / 0x1_0000 % 0x100, n / 0x100 % 0x100, n % 0x100]
  }

  function Encode(i: Instr): (r: seq<Byte>)
    ensures r != []
  {
    match i
    case Pop => [0]
    case Dup => [1]
    case Swp => [2]
    case PushNull => [3]
    case PushTrue => [4]
    case PushFalse => [5]
    case PushConst(k) => [6] + ShortBytes(k)
    case GetLocal(s) => [7, s]
    case SetLocal(s) => [8, s]
    case SetLocalWithMath(op, s) => [9, op, s]
    case GetUpvalue(s) => [10, s]
    case SetUpvalue(s) => [11, s]
    case SetUpvalueWithMath(op, s) => [12, op, s]
    case CloseUpvalue => [13]
    case GetGlobal(k) => [14] + ShortBytes(k)
    case SetGlobal(k) => [15] + ShortBytes(k)
    case SetGlobalWithMath(op, k) => [16, op] + ShortBytes(k)
    case GetSub => [17]
    case SetSub => [18]
    case SetSubWithMath(op) => [19, op]
    case MakeArray(n) => [20] + WordBytes(n)
    case MakeMap(n) => [21] + WordBytes(n)
    case MakeClosure(k, ds) => [22] + ShortBytes(k) + ds
    case MakeSlice => [23]
    case MakeSliceAbove => [24]
    case MakeSliceUnder => [25]
    case CopyBySlicing => [26]
    case Negate => [27]
    case LogicalNot => [28]
    case Operate(op) => [OpByte(op)]
    case CallOp(n) => [41, n]
    case PopJumpIfFalse(o) => [42] + ShortBytes(o)
    case JumpIfFalse(o) => [43] + ShortBytes(o)
    case Jump(o) => [44] + ShortBytes(o)
    case Loop(o) => [45] + ShortBytes(o)
    case ReturnOp => [46]
  }

  /** The binary operators are the opcodes 29 to 40, in the order of the enumeration. */
  lemma OperatorCodes(op: BinaryOp)
    ensures Encode(Operate(op)) ==
            [if op == Add then 29 else if op == Sub then 30 else if op == Mul then 31 else if op == Div then 32
             else if op == Pow then 33 else if op == Mod then 34 else if op == Eql then 35 else if op == Neq then 36
             else if op == Lt then 37 else if op == Gt then 38 else if op == Lte then 39 else 40]
  {
  }

  // The number of bytes that encode an instruction.
  function Width(i: Instr): nat {
    match i
    case PushConst(_) => 3
    case GetLocal(_) => 2
    case SetLocal(_) => 2
    case SetLocalWithMath(_, _) => 3
    case GetUpvalue(_) => 2
    case SetUpvalue(_) => 2
    case SetUpvalueWithMath(_, _) => 3
    case GetGlobal(_) => 3
    case SetGlobal(_) => 3
    case SetGlobalWithMath(_, _) => 4
    case SetSubWithMath(_) => 2
    case MakeArray(_) => 5
    case MakeMap(_) => 5
    case MakeClosure(_, ds) => 3 + |ds|
    case CallOp(_) => 2
    case PopJumpIfFalse(_) => 3
    case JumpIfFalse(_) => 3
    case Jump(_) => 3
    case Loop(_) => 3
    case _ => 1
  }

  lemma EncodeWidth(i: Instr)
    ensures |Encode(i)| == Width(i)
  {
  }

  datatype Chunk = Chunk(bytes: seq<Byte>, constants: seq<Value>)

  // READ_SHORT and READ_WORD.
  function ShortAt(bytes: seq<Byte>, at: nat): Short
    requires at + 2 <= |bytes|
  {
    var hi: int := bytes[at];
    hi * 0x100 + bytes[at + 1]
  }

  function WordAt(bytes: seq<Byte>, at: nat): Word
    requires at + 4 <= |bytes|
  {
    var hi: int := ShortAt(bytes, at);
    hi * 0x1_0000 + ShortAt(bytes, at + 2)
  }

  // The descriptors of a closure follow the instruction, two bytes for each captured variable.
  function DescriptorBytes(constants: seq<Value>, k: Short): Option<nat> {
    if k < |constants| && constants[k].FunctionObj? then
      var n: int := constants[k].upvalues;
      Some(2 * n)
    else None
  }

  // The instruction that the dispatch loop reads at ip.
  function Decode(chunk: Chunk, ip: nat): Option<Instr> {
    var bytes := chunk.bytes;
    if ip >= |bytes| then None
    else
      var left := |bytes| - ip - 1;
      match bytes[ip]
      case 0 => Some(Pop)
      case 1 => Some(Dup)
      case 2 => Some(Swp)
      case 3 => Some(PushNull)
      case 4 => Some(PushTrue)
      case 5 => Some(PushFalse)
      case 6 => if left >= 2 then Some(PushConst(ShortAt(bytes, ip + 1))) else None
      case 7 => if left >= 1 then Some(GetLocal(bytes[ip + 1])) else None
      case 8 => if left >= 1 then Some(SetLocal(bytes[ip + 1])) else None
      case 9 => if left >= 2 then Some(SetLocalWithMath(bytes[ip + 1], bytes[ip + 2])) else None
      case 10 => if left >= 1 then Some(GetUpvalue(bytes[ip + 1])) else None
      case 11 => if left >= 1 then Some(SetUpvalue(bytes[ip + 1])) else None
      case 12 => if left >= 2 then Some(SetUpvalueWithMath(bytes[ip + 1], bytes[ip + 2])) else None
      case 13 => Some(CloseUpvalue)
      case 14 => if left >= 2 then Some(GetGlobal(ShortAt(bytes, ip + 1))) else None
      case 15 => if left >= 2 then Some(SetGlobal(ShortAt(bytes, ip + 1))) else None
      case 16 => if left >= 3 then Some(SetGlobalWithMath(bytes[ip + 1], ShortAt(bytes, ip + 2))) else None
      case 17 => Some(GetSub)
      case 18 => Some(SetSub)
      case 19 => if left >= 1 then Some(SetSubWithMath(bytes[ip + 1])) else None
      case 20 => if left >= 4 then Some(MakeArray(WordAt(bytes, ip + 1))) else None
      case 21 => if left >= 4 then Some(MakeMap(WordAt(bytes, ip + 1))) else None
      case 22 =>
        if left < 2 then None
        else
          var k := ShortAt(bytes, ip + 1);
          (match DescriptorBytes(chunk.constants, k)
           case None => None
           case Some(n) =>
             if left >= 2 + n then Some(MakeClosure(k, bytes[ip + 3..ip + 3 + n])) else None)
      case 23 => Some(MakeSlice)
      case 24 => Some(MakeSliceAbove)
      case 25 => Some(MakeSliceUnder)
      case 26 => Some(CopyBySlicing)
      case 27 => Some(Negate)
      case 28 => Some(LogicalNot)
      case 41 => if left >= 1 then Some(CallOp(bytes[ip + 1])) else None
      case 42 => if left >= 2 then Some(PopJumpIfFalse(ShortAt(bytes, ip + 1))) else None
      case 43 => if left >= 2 then Some(JumpIfFalse(ShortAt(bytes, ip + 1))) else None
      case 44 => if left >= 2 then Some(Jump(ShortAt(bytes, ip + 1))) else None
      case 45 => if left >= 2 then Some(Loop(ShortAt(bytes, ip + 1))) else None
      case 46 => Some(ReturnOp)
      case b => (match OpOf(b) case Some(op) => Some(Operate(op)) case None => None)
  }

  // The operands of i fit the constant pool: a closure has as many descriptors as its function asks for.
  predicate Fits(constants: seq<Value>, i: Instr) {
    i.MakeClosure? ==> DescriptorBytes(constants, i.k) == Some(|i.descriptors|)
  }

  lemma ShortRead(bytes: seq<Byte>, at: nat, n: Short)
    requires at + 2 <= |bytes| && bytes[at..at + 2] == ShortBytes(n)
    ensures ShortAt(bytes, at) == n
  {
    assert bytes[at] == bytes[at..at + 2][0] && bytes[at + 1] == bytes[at..at + 2][1];
  }

  lemma WordHalves(n: Word)
    ensures WordBytes(n) == ShortBytes(n / 0x1_0000) + ShortBytes(n % 0x1_0000)
  {
    var hi, lo := n / 0x1_0000, n % 0x1_0000;
    assert n == hi * 0x1_0000 + lo;
    assert n / 0x100_0000 == hi / 0x100;
    assert n / 0x100 == hi * 0x100 + lo / 0x100;
    assert n / 0x100 % 0x100 == lo / 0x100;
    assert n % 0x100 == lo % 0x100;
  }

  lemma WordRead(bytes: seq<Byte>, at: nat, n: Word)
    requires at + 4 <= |bytes| && bytes[at..at + 4] == WordBytes(n)
    ensures WordAt(bytes, at) == n
  {
    hide ShortBytes, WordBytes, ShortAt;
    WordHalves(n);
    var hi, lo := n / 0x1_0000, n % 0x1_0000;
    ShortLength(hi);
    ShortLength(lo);
    assert bytes[at..at + 2] == bytes[at..at + 4][..2] && bytes[at + 2..at + 4] == bytes[at..at + 4][2..];
    ShortRead(bytes, at, hi);
    ShortRead(bytes, at + 2, lo);
  }

  predicate EndsInShort(i: Instr) {
    i.PushConst? || i.GetGlobal? || i.SetGlobal? || i.PopJumpIfFalse? || i.JumpIfFalse? || i.Jump? || i.Loop?
  }

  predicate StandsAt(chunk: Chunk, ip: nat, i: Instr) {
    && Fits(chunk.constants, i)
    && ip + |Encode(i)| <= |chunk.bytes|
    && chunk.bytes[ip..ip + |Encode(i)|] == Encode(i)
  }

  lemma DecodeEncodeShort(chunk: Chunk, ip: nat, i: Instr)
    requires StandsAt(chunk, ip, i) && EndsInShort(i)
    ensures Decode(chunk, ip) == Some(i)
  {
    hide ShortBytes, ShortAt;
    var bytes, e := chunk.bytes, Encode(i);
    assert bytes[ip] == bytes[ip..ip + |e|][0];
    var k := if i.PushConst? || i.GetGlobal? || i.SetGlobal? then i.k else i.offset;
    ShortLength(k);
    assert bytes[ip + 1..ip + 3] == e[1..3] == ShortBytes(k);
    ShortRead(bytes, ip + 1, k);
  }

  lemma DecodeEncodeWord(chunk: Chunk, ip: nat, i: Instr)
    requires StandsAt(chunk, ip, i) && (i.MakeArray? || i.MakeMap?)
    ensures Decode(chunk, ip) == Some(i)
  {
    hide WordBytes, WordAt;
    var bytes, e := chunk.bytes, Encode(i);
    assert bytes[ip] == bytes[ip..ip + |e|][0];
    WordLength(i.count);
    assert bytes[ip + 1..ip + 5] == e[1..5] == WordBytes(i.count);
    WordRead(bytes, ip + 1, i.count);
  }

  lemma DecodeEncodeMath(chunk: Chunk, ip: nat, i: Instr)
    requires StandsAt(chunk, ip, i) && i.SetGlobalWithMath?
    ensures Decode(chunk, ip) == Some(i)
  {
    hide ShortBytes, ShortAt;
    var bytes, e := chunk.bytes, Encode(i);
    ShortLength(i.k);
    assert e == [16, i.op] + ShortBytes(i.k);
    assert bytes[ip] == bytes[ip..ip + 4][0] && bytes[ip + 1] == bytes[ip..ip + 4][1];
    assert bytes[ip + 2..ip + 4] == e[2..] == ShortBytes(i.k);
    ShortRead(bytes, ip + 2, i.k);
  }

  lemma DecodeEncodeClosure(chunk: Chunk, ip: nat, i: Instr)
    requires StandsAt(chunk, ip, i) && i.MakeClosure?
    ensures Decode(chunk, ip) == Some(i)
  {
    hide ShortBytes, ShortAt;
    var bytes, e, k := chunk.bytes, Encode(i), ShortBytes(i.k);
    ShortLength(i.k);
    assert e == [22] + (k + i.descriptors);
    assert bytes[ip] == bytes[ip..ip + |e|][0];
    assert e[1..3] == k && e[3..] == i.descriptors;
    assert bytes[ip + 1..ip + 3] == bytes[ip..ip + |e|][1..3];
    assert bytes[ip + 3..ip + |e|] == bytes[ip..ip + |e|][3..];
    ShortRead(bytes, ip + 1, i.k);
  }

  // Where the bytes of i stand, the dispatch loop reads i.
  lemma DecodeEncode(chunk: Chunk, ip: nat, i: Instr)
    requires StandsAt(chunk, ip, i)
    ensures Decode(chunk, ip) == Some(i)
  {
    if EndsInShort(i) {
      DecodeEncodeShort(chunk, ip, i);
    } else if i.MakeArray? || i.MakeMap? {
      DecodeEncodeWord(chunk, ip, i);
    } else if i.SetGlobalWithMath? {
      DecodeEncodeMath(chunk, ip, i);
    } else if i.MakeClosure? {
      DecodeEncodeClosure(chunk, ip, i);
    } else {
      var bytes, e := chunk.bytes, Encode(i);
      assert bytes[ip] == bytes[ip..ip + |e|][0];
      assert |e| > 1 ==> bytes[ip + 1] == bytes[ip..ip + |e|][1];
      assert |e| > 2 ==> bytes[ip + 2] == bytes[ip..ip + |e|][2];
    }
  }

  lemma ShortLength(n: Short)
    ensures |ShortBytes(n)| == 2
  {
  }

  lemma WordLength(n: Word)
    ensures |WordBytes(n)| == 4
  {
  }
}

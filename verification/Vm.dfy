/**
 The virtual machine (vm_run in src/vm.c) as a step function over frames, stack, globals and heap.
 Captured variables are the subject of module Upvalues; here an instruction on them is Unmodelled.
 */
module Vm {
  import opened Syntax
  import opened Arithmetic
  import opened Values
  import opened Primitives
  import opened Bytecode

  /** What a program runs in: arithmetic, the native functions, the chunk of each function object, and the
      functions whose calls the source semantics gives a meaning to. */
  datatype World = World(
    ar: Arith,
    native: (nat, Heap, seq<Value>) -> Res<(Value, Heap)>,
    codeOf: Function -> Chunk,
    admits: Function -> bool
  )

  const FRAMES_MAX: nat := 64

  datatype Frame = Frame(code: Chunk, ip: nat, base: nat)

  datatype State = State(saved: seq<Frame>, frame: Frame, stack: seq<Value>, globals: map<Name, Value>, heap: Heap)

  datatype Outcome =
    | Running(s: State)
    | Halted(result: Value, globals: map<Name, Value>, heap: Heap)
    | Error
    | Malformed // the bytes or the stack are not what any compiled program has
    | Beyond    // see Primitives.Res.Unmodelled

  function Push(s: State, below: seq<Value>, r: Res<(Value, Heap)>): Outcome {
    match r
    case Done((v, heap)) => Running(s.(stack := below + [v], heap := heap))
    case Unmodelled => Beyond
    case _ => Error
  }

  function PushValue(s: State, below: seq<Value>, r: Res<Value>): Outcome {
    match r
    case Done(v) => Running(s.(stack := below + [v]))
    case Unmodelled => Beyond
    case _ => Error
  }

  /** Pushes lhs and rhs and runs vm_execute_math, ignoring whether it succeeded: when it did not,
      both operands stay on the stack. */
  function MathIgnored(w: World, heap: Heap, below: seq<Value>, op: Byte, lhs: Value, rhs: Value): Res<(seq<Value>,
      Heap)> {
    match OpOf(op)
    case None => Unmodelled
    case Some(o) =>
      match Math(w.ar, heap, o, lhs, rhs)
      case Done((v, h)) => Done((below + [v], h))
      case Failed => Done((below + [lhs, rhs], heap))
      case Exits => Exits
      case Unmodelled => Unmodelled
  }

  function ConstantName(s: State, k: Short): Option<Name> {
    var pool := s.frame.code.constants;
    if k < |pool| && pool[k].Text? then Some(pool[k].s) else None
  }

  function ExecuteLocal(w: World, s: State, i: Instr): Outcome
    requires i.GetLocal? || i.SetLocal? || i.SetLocalWithMath?
  {
    var st, n := s.stack, |s.stack|;
    var at := s.frame.base + i.slot;
    if at >= n then Malformed
    else match i
         case GetLocal(_) => Running(s.(stack := st + [st[at]]))
         case SetLocal(_) => Running(s.(stack := st[at := st[n - 1]]))
         case SetLocalWithMath(op, _) =>
           if at >= n - 1 then Malformed
           else
             (match MathIgnored(w, s.heap, st[..n - 1], op, st[at], st[n - 1])
              case Done((st', heap)) => Running(s.(stack := st'[at := st'[|st'| - 1]], heap := heap))
              case Unmodelled => Beyond
              case _ => Error)
  }

  function ExecuteGlobal(w: World, s: State, i: Instr): Outcome
    requires i.GetGlobal? || i.SetGlobal? || i.SetGlobalWithMath?
  {
    var st, n := s.stack, |s.stack|;
    match ConstantName(s, i.k)
    case None => Malformed
    case Some(x) =>
      match i
      case GetGlobal(_) => if x in s.globals then Running(s.(stack := st + [s.globals[x]])) else Error
      case SetGlobal(_) => if n < 1 then Malformed else Running(s.(globals := s.globals[x := st[n - 1]]))
      case SetGlobalWithMath(op, _) =>
        if n < 1 then Malformed
        else if x !in s.globals then Error
        else
          match MathIgnored(w, s.heap, st[..n - 1], op, s.globals[x], st[n - 1])
          case Done((st', heap)) =>
            Running(s.(stack := st', heap := heap, globals := s.globals[x := st'[|st'| - 1]]))
          case Unmodelled => Beyond
          case _ => Error
  }

  function ExecuteSubscript(w: World, s: State, i: Instr): Outcome
    requires i.GetSub? || i.SetSub? || i.SetSubWithMath?
  {
    var st, n := s.stack, |s.stack|;
    if n < 2 then Malformed
    else
      var target, index := st[n - 1], st[n - 2];
      match i
      case GetSub => PushValue(s, st[..n - 2], GetSubscript(w.ar, s.heap, target, index))
      case SetSub =>
        if n < 3 then Malformed
        else
          (match SetSubscript(w.ar, s.heap, target, index, st[n - 3])
           case Done(heap) => Running(s.(stack := st[..n - 2], heap := heap))
           case Unmodelled => Beyond
           case _ => Error)
      case SetSubWithMath(op) =>
        if n < 3 || OpOf(op) == None then Malformed
        else Push(s, st[..n - 3], UpdateSubscript(w.ar, s.heap, OpOf(op).value, target, index, st[n - 3]))
  }

  // target[index] op= rhs; the result is the value stored.
  function UpdateSubscript(ar: Arith, heap: Heap, op: BinaryOp, target: Value, index: Value, rhs: Value): Res<(Value,
      Heap)> {
    match GetSubscript(ar, heap, target, index)
    case Done(lhs) =>
      (match Math(ar, heap, op, lhs, rhs)
       case Done((v, heap1)) =>
         (match SetSubscript(ar, heap1, target, index, v)
          case Done(heap2) => Done((v, heap2))
          case Unmodelled => Unmodelled
          case _ => Failed)
       case Unmodelled => Unmodelled
       case _ => Failed)
    case Unmodelled => Unmodelled
    case _ => Failed
  }

  function ExecuteSlice(w: World, s: State, i: Instr): Outcome
    requires i.MakeSlice? || i.MakeSliceAbove? || i.MakeSliceUnder? || i.CopyBySlicing?
  {
    var st, n := s.stack, |s.stack|;
    var need := if i.MakeSlice? then 3 else if i.CopyBySlicing? then 1 else 2;
    if n < need then Malformed
    else
      var start := if i.MakeSlice? || i.MakeSliceAbove? then Some(st[n - 2]) else None;
      var end := if i.MakeSlice? then Some(st[n - 3]) else if i.MakeSliceUnder? then Some(st[n - 2]) else None;
      Push(s, st[..n - need], SliceOf(w.ar, s.heap, st[n - 1], start, end))
  }

  // vm_call_value.
  function ExecuteCall(w: World, s: State, argc: Byte): Outcome {
    var st, n := s.stack, |s.stack|;
    if n < 1 + argc then Malformed
    else
      match st[n - 1]
      case Closure(f) =>
        if |f.params| != argc || |s.saved| + 1 == FRAMES_MAX then Error
        else Running(s.(saved := s.saved + [s.frame], frame := Frame(w.codeOf(f), 0, n - 1 - argc),
            stack := st[..n - 1]))
      case Native(id) => Push(s, st[..n - 1 - argc], w.native(id, s.heap, st[n - 1 - argc..n - 1]))
      case FunctionObj(_, _) => Malformed
      case _ => Error
  }

  function ExecuteReturn(s: State): Outcome {
    var st, n := s.stack, |s.stack|;
    if n < 1 then Malformed
    else if s.saved == [] then Halted(st[n - 1], s.globals, s.heap)
    else if s.frame.base > n - 1 then Malformed
    else
      var k := |s.saved| - 1;
      Running(s.(saved := s.saved[..k], frame := s.saved[k], stack := st[..s.frame.base] + [st[n - 1]]))
  }

  function JumpTo(s: State, ip: int): Outcome {
    if ip < 0 then Malformed else Running(s.(frame := s.frame.(ip := ip)))
  }

  // One instruction; the ip of the frame is already past it.
  function Execute(w: World, s: State, i: Instr): Outcome {
    var st, n := s.stack, |s.stack|;
    match i
    case Pop => if n < 1 then Malformed else Running(s.(stack := st[..n - 1]))
    case Dup => if n < 1 then Malformed else Running(s.(stack := st + [st[n - 1]]))
    case Swp => if n < 2 then Malformed else Running(s.(stack := st[..n - 2] + [st[n - 1], st[n - 2]]))
    case PushNull => Running(s.(stack := st + [Null]))
    case PushTrue => Running(s.(stack := st + [Bool(true)]))
    case PushFalse => Running(s.(stack := st + [Bool(false)]))
    case PushConst(k) =>
      if k < |s.frame.code.constants| then Running(s.(stack := st + [s.frame.code.constants[k]])) else Malformed
    case GetLocal(_) => ExecuteLocal(w, s, i)
    case SetLocal(_) => ExecuteLocal(w, s, i)
    case SetLocalWithMath(_, _) => ExecuteLocal(w, s, i)
    case GetGlobal(_) => ExecuteGlobal(w, s, i)
    case SetGlobal(_) => ExecuteGlobal(w, s, i)
    case SetGlobalWithMath(_, _) => ExecuteGlobal(w, s, i)
    case GetSub => ExecuteSubscript(w, s, i)
    case SetSub => ExecuteSubscript(w, s, i)
    case SetSubWithMath(_) => ExecuteSubscript(w, s, i)
    case MakeArray(count) =>
      if n < count then Malformed else Push(s, st[..n - count], Done(NewArray(s.heap, st[n - count..])))
    case MakeMap(count) =>
      if n < 2 * count then Malformed else Push(s, st[..n - 2 * count], NewMap(s.heap, st[n - 2 * count..]))
    case MakeClosure(k, ds) =>
      if ds != [] then Beyond
      else if k < |s.frame.code.constants| && s.frame.code.constants[k].FunctionObj? then
        Running(s.(stack := st + [Closure(s.frame.code.constants[k].f)]))
      else Malformed
    case MakeSlice => ExecuteSlice(w, s, i)
    case MakeSliceAbove => ExecuteSlice(w, s, i)
    case MakeSliceUnder => ExecuteSlice(w, s, i)
    case CopyBySlicing => ExecuteSlice(w, s, i)
    case Negate => if n < 1 then Malformed else PushValue(s, st[..n - 1], ApplyUnary(w.ar, s.heap, Neg, st[n - 1]))
    case LogicalNot => if n < 1 then Malformed else PushValue(s, st[..n - 1], ApplyUnary(w.ar, s.heap, Not, st[n - 1]))
    case Operate(op) =>
      if n < 2 then Malformed else Push(s, st[..n - 2], Apply(w.ar, s.heap, op, st[n - 2], st[n - 1]))
    case CallOp(argc) => ExecuteCall(w, s, argc)
    case PopJumpIfFalse(offset) =>
      if n < 1 then Malformed
      else JumpTo(s.(stack := st[..n - 1]), s.frame.ip + (if Falsey(w.ar, s.heap, st[n - 1]) then offset else 0))
    case JumpIfFalse(offset) =>
      if n < 1 then Malformed
      else JumpTo(s, s.frame.ip + (if Falsey(w.ar, s.heap, st[n - 1]) then offset else 0))
    case Jump(offset) => JumpTo(s, s.frame.ip + offset)
    case Loop(offset) => JumpTo(s, s.frame.ip - offset)
    case ReturnOp => ExecuteReturn(s)
    case CloseUpvalue => Beyond
    case GetUpvalue(_) => Beyond
    case SetUpvalue(_) => Beyond
    case SetUpvalueWithMath(_, _) => Beyond
  }

  function Advance(s: State, i: Instr): State {
    s.(frame := s.frame.(ip := s.frame.ip + Width(i)))
  }

  function Step(w: World, s: State): Outcome {
    match Decode(s.frame.code, s.frame.ip)
    case None => Malformed
    case Some(i) => Execute(w, Advance(s, i), i)
  }

  // The outcome after n steps, or the final outcome if the machine stops earlier.
  function Run(w: World, s: State, n: nat): Outcome
    decreases n
  {
    if n == 0 then Running(s)
    else match Step(w, s)
         case Running(s') => Run(w, s', n - 1)
         case final => final
  }

  lemma {:induction false} RunAdd(w: World, s: State, a: nat, b: nat)
    ensures Run(w, s, a + b) == match Run(w, s, a) case Running(s') => Run(w, s', b) case final => final
    decreases a
  {
    hide Step;
    if a > 0 {
      match Step(w, s)
      case Running(s') => RunAdd(w, s', a - 1, b);
      case _ =>
    }
  }

  // Once the machine has stopped, it stays stopped; before that it was running.
  lemma RunOnce(w: World, s: State, a: nat, b: nat)
    requires !Run(w, s, a).Running? && !Run(w, s, b).Running?
    ensures Run(w, s, a) == Run(w, s, b)
  {
    if a <= b {
      RunAdd(w, s, a, b - a);
    } else {
      RunAdd(w, s, b, a - b);
    }
  }

  lemma {:induction false} RunsOn(w: World, s: State, n: nat, m: nat)
    requires Run(w, s, n).Running? && m <= n
    ensures Run(w, s, m).Running?
  {
    hide Step;
    RunAdd(w, s, m, n - m);
  }

  // ----- whole runs -----

  ghost predicate Ends(w: World, s: State, o: Outcome) {
    !o.Running? && exists n: nat :: Run(w, s, n) == o
  }

  ghost predicate RunsForEver(w: World, s: State) {
    forall n: nat :: Run(w, s, n).Running?
  }
}

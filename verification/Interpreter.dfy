/**
 vm_run (src/vm.c) with its frames, stack, globals and heap changed in place: operands are read byte by byte and
 values are pushed, popped and poked in the order of the source. Each turn of the dispatch loop is one step of
 module Vm, and the loop ends as the steps do.
 */
module Interpreter {
  import opened Syntax
  import opened Arithmetic
  import opened Values
  import opened Primitives
  import opened Bytecode
  import opened Vm
  import Utf8

  // How an instruction ends: the loop goes on, vm_run returns, or an error was reported.
  datatype Signal = Next | Finished(result: Value) | Stopped

  datatype Checked = Fine | Refused | Exited

  class Interpreter {
    const w: World
    var frames: seq<Frame>
    var stack: seq<Value>
    var globals: map<Name, Value>
    var heap: Heap

    constructor (w: World, s: State)
      ensures this.w == w && frames != [] && View() == s
    {
      this.w := w;
      frames, stack, globals, heap := s.saved + [s.frame], s.stack, s.globals, s.heap;
    }

    ghost function View(): State
      requires frames != []
      reads this
    {
      var k := |frames| - 1;
      State(frames[..k], frames[k], stack, globals, heap)
    }

    ghost predicate Shows(r: Signal, o: Outcome)
      reads this
    {
      match r
      case Next => frames != [] && o == Running(View())
      case Finished(v) => o == Halted(v, globals, heap)
      case Stopped => o == Error
    }

    // The step from s is one that compiled code can take.
    ghost predicate Defined(s: State) {
      !Step(w, s).Malformed? && !Step(w, s).Beyond?
    }

    // The opcode of s was read, and nothing else happened yet.
    ghost predicate Fetched(s: State, op: Byte)
      reads this
    {
      && Defined(s) && frames != [] && View() == s.(frame := s.frame.(ip := s.frame.ip + 1))
      && s.frame.ip < |s.frame.code.bytes| && s.frame.code.bytes[s.frame.ip] == op
    }

    // ----- the stack and the operands -----

    method Push(v: Value)
      modifies this`stack
      ensures stack == old(stack) + [v]
    {
      stack := stack + [v];
    }

    method Pop() returns (v: Value)
      requires stack != []
      modifies this`stack
      ensures v == old(stack)[|old(stack)| - 1] && stack == old(stack)[..|old(stack)| - 1]
    {
      v := stack[|stack| - 1];
      stack := stack[..|stack| - 1];
    }

    function Peek(distance: nat): Value
      requires distance < |stack|
      reads this
    {
      stack[|stack| - 1 - distance]
    }

    method Poke(distance: nat, v: Value)
      requires distance < |stack|
      modifies this`stack
      ensures stack == old(stack)[|old(stack)| - 1 - distance := v]
    {
      stack := stack[|stack| - 1 - distance := v];
    }

    function Current(): Frame
      requires frames != []
      reads this
    {
      frames[|frames| - 1]
    }

    method SetIp(ip: nat)
      requires frames != []
      modifies this`frames
      ensures frames != [] && View() == old(View()).(frame := old(View()).frame.(ip := ip))
    {
      var k := |frames| - 1;
      frames := frames[..k] + [frames[k].(ip := ip)];
    }

    method ReadByte() returns (b: Byte)
      requires frames != [] && Current().ip < |Current().code.bytes|
      modifies this`frames
      ensures frames != [] && View() == old(View()).(frame := old(View()).frame.(ip := old(Current().ip) + 1))
      ensures b == old(Current().code.bytes[Current().ip])
    {
      b := Current().code.bytes[Current().ip];
      SetIp(Current().ip + 1);
    }

    method ReadShort() returns (n: Short)
      requires frames != [] && Current().ip + 2 <= |Current().code.bytes|
      modifies this`frames
      ensures frames != [] && View() == old(View()).(frame := old(View()).frame.(ip := old(Current().ip) + 2))
      ensures n == ShortAt(old(Current().code.bytes), old(Current().ip))
    {
      var hi := ReadByte();
      var lo := ReadByte();
      n := ShortOf(hi, lo);
    }

    method ReadWord() returns (n: Word)
      requires frames != [] && Current().ip + 4 <= |Current().code.bytes|
      modifies this`frames
      ensures frames != [] && View() == old(View()).(frame := old(View()).frame.(ip := old(Current().ip) + 4))
      ensures n == WordAt(old(Current().code.bytes), old(Current().ip))
    {
      var hi := ReadShort();
      var lo := ReadShort();
      n := WordOf(hi, lo);
    }

    // READ_STRING.
    method ReadName() returns (x: Name)
      requires frames != [] && Current().ip + 2 <= |Current().code.bytes|
      requires ConstantName(View(), ShortAt(Current().code.bytes, Current().ip)).Some?
      modifies this`frames
      ensures frames != [] && View() == old(View()).(frame := old(View()).frame.(ip := old(Current().ip) + 2))
      ensures Some(x) == old(ConstantName(View(), ShortAt(Current().code.bytes, Current().ip)))
    {
      var k := ReadShort();
      x := Current().code.constants[k].s;
    }

    // ----- values -----

    method DoPop(ghost s: State) returns (r: Signal)
      requires Fetched(s, 0)
      modifies this
      ensures Shows(r, Step(w, s))
    {
      var v := Pop();
      r := Next;
    }

    method DoDup(ghost s: State) returns (r: Signal)
      requires Fetched(s, 1)
      modifies this
      ensures Shows(r, Step(w, s))
    {
      Push(Peek(0));
      r := Next;
    }

    method DoSwp(ghost s: State) returns (r: Signal)
      requires Fetched(s, 2)
      modifies this
      ensures Shows(r, Step(w, s))
    {
      var a, b := Peek(0), Peek(1);
      Poke(0, b);
      Poke(1, a);
      ghost var n := |s.stack|;
      assert stack == s.stack[..n - 2] + [s.stack[n - 1], s.stack[n - 2]];
      r := Next;
    }

    method DoPushLiteral(ghost s: State, op: Byte) returns (r: Signal)
      requires 3 <= op <= 5 && Fetched(s, op)
      modifies this
      ensures Shows(r, Step(w, s))
    {
      Push(if op == 3 then Null else Bool(op == 4));
      r := Next;
    }

    method DoPushConst(ghost s: State) returns (r: Signal)
      requires Fetched(s, 6)
      modifies this
      ensures Shows(r, Step(w, s))
    {
      var k := ReadShort();
      Push(Current().code.constants[k]);
      r := Next;
    }

    // ----- variables -----

    method DoGetLocal(ghost s: State) returns (r: Signal)
      requires Fetched(s, 7)
      modifies this
      ensures Shows(r, Step(w, s))
    {
      var slot := ReadByte();
      Push(stack[Current().base + slot]);
      r := Next;
    }

    method DoSetLocal(ghost s: State) returns (r: Signal)
      requires Fetched(s, 8)
      modifies this
      ensures Shows(r, Step(w, s))
    {
      var slot := ReadByte();
      stack := stack[Current().base + slot := Peek(0)];
      r := Next;
    }

    method DoSetLocalWithMath(ghost s: State) returns (r: Signal)
      requires Fetched(s, 9)
      modifies this
      ensures Shows(r, Step(w, s))
    {
      hide Decode, Math, Execute, Step, OpOf;
      ReadsMath(w, s);
      var op := ReadByte();
      var slot := ReadByte();
      var at := Current().base + slot;
      var rhs := Pop();
      var lhs := stack[at];
      Push(lhs);
      Push(rhs);
      OnlyMath(w.ar, heap, op, lhs, rhs);
      var done := ExecuteMath(op);
      if done.Exited? {
        return Stopped;
      }
      stack := stack[at := Peek(0)];
      r := Next;
    }

    method DoGetGlobal(ghost s: State) returns (r: Signal)
      requires Fetched(s, 14)
      modifies this
      ensures Shows(r, Step(w, s))
    {
      var key := ReadName();
      if key !in globals {
        return Stopped;
      }
      Push(globals[key]);
      r := Next;
    }

    method DoSetGlobal(ghost s: State) returns (r: Signal)
      requires Fetched(s, 15)
      modifies this
      ensures Shows(r, Step(w, s))
    {
      var key := ReadName();
      globals := globals[key := Peek(0)];
      r := Next;
    }

    method DoSetGlobalWithMath(ghost s: State) returns (r: Signal)
      requires Fetched(s, 16)
      modifies this
      ensures Shows(r, Step(w, s))
    {
      hide Decode, Math, Execute, Step;
      ReadsMath(w, s);
      var op := ReadByte();
      var key := ReadName();
      var rhs := Pop();
      if key !in globals {
        return Stopped;
      }
      Push(globals[key]);
      Push(rhs);
      OnlyMath(w.ar, heap, op, globals[key], rhs);
      var done := ExecuteMath(op);
      if done.Exited? {
        return Stopped;
      }
      globals := globals[key := Peek(0)];
      r := Next;
    }

    // ----- arithmetic -----

    // vm_execute_math.
    method ExecuteMath(op: Byte) returns (done: Checked)
      requires |stack| >= 2 && OpOf(op).Some? && IsMath(OpOf(op).value)
      modifies this`stack, this`heap
      ensures var st, n := old(stack), old(|stack|);
              match Math(w.ar, old(heap), OpOf(op).value, st[n - 2], st[n - 1])
              case Done((v, h)) => done.Fine? && stack == st[..n - 2] + [v] && heap == h
              case Failed => done.Refused? && stack == st && heap == old(heap)
              case _ => done.Exited?
    {
      if op == OpByte(Add) {
        done := AddTop();
      } else {
        var rhs, lhs := Peek(0), Peek(1);
        if lhs.Num? && rhs.Num? {
          var top := Pop();
          Poke(0, Num(NumericOp(w.ar, OpOf(op).value, lhs.d, rhs.d)));
          done := Fine;
        } else {
          done := Refused;
        }
      }
    }

    // vm_add.
    method AddTop() returns (done: Checked)
      requires |stack| >= 2
      modifies this`stack, this`heap
      ensures var st, n := old(stack), old(|stack|);
              match AddValues(w.ar, old(heap), st[n - 2], st[n - 1])
              case Done((v, h)) => done.Fine? && stack == st[..n - 2] + [v] && heap == h
              case Failed => done.Refused? && stack == st && heap == old(heap)
              case _ => done.Exited?
    {
      var rhs, lhs := Peek(0), Peek(1);
      if lhs.Num? && rhs.Num? {
        Replace(Num(w.ar.add(lhs.d, rhs.d)));
        return Fine;
      }
      if lhs.Text? {
        var right := ToString(w.ar, rhs);
        if !right.Done? {
          return Exited;
        }
        Replace(Text(lhs.s + right.value));
        return Fine;
      }
      if rhs.Text? {
        var left := ToString(w.ar, lhs);
        if !left.Done? {
          return Exited;
        }
        Replace(Text(left.value + rhs.s));
        return Fine;
      }
      if IsArray(heap, lhs) && IsArray(heap, rhs) {
        var made := NewArray(heap, heap[lhs.address].items + heap[rhs.address].items);
        heap := made.1;
        Replace(made.0);
        return Fine;
      }
      done := Refused;
    }

    // Two operands give way to a result.
    method Replace(v: Value)
      requires |stack| >= 2
      modifies this`stack
      ensures stack == old(stack)[..|old(stack)| - 2] + [v]
    {
      var rhs := Pop();
      Poke(0, v);
    }

    method DoOperate(ghost s: State, op: Byte) returns (r: Signal)
      requires 29 <= op <= 40 && Fetched(s, op)
      modifies this
      ensures Shows(r, Step(w, s))
    {
      var o := OpOf(op).value;
      if IsMath(o) {
        var done := ExecuteMath(op);
        r := if done.Fine? then Next else Stopped;
        return;
      }
      var rhs, lhs := Peek(0), Peek(1);
      if o.Eql? || o.Neq? {
        var equal := Equal(w.ar, heap, lhs, rhs);
        Replace(Bool(equal.value == o.Eql?));
        return Next;
      }
      if !lhs.Num? || !rhs.Num? {
        return Stopped;
      }
      Replace(Bool(match o
                   case Lt => w.ar.lt(lhs.d, rhs.d)
                   case Gt => w.ar.lt(rhs.d, lhs.d)
                   case Lte => w.ar.lte(lhs.d, rhs.d)
                   case Gte => w.ar.lte(rhs.d, lhs.d)));
      r := Next;
    }

    method DoNegate(ghost s: State) returns (r: Signal)
      requires Fetched(s, 27)
      modifies this
      ensures Shows(r, Step(w, s))
    {
      var rhs := Peek(0);
      if !rhs.Num? {
        return Stopped;
      }
      Poke(0, Num(w.ar.neg(rhs.d)));
      r := Next;
    }

    method DoNot(ghost s: State) returns (r: Signal)
      requires Fetched(s, 28)
      modifies this
      ensures Shows(r, Step(w, s))
    {
      Poke(0, Bool(Falsey(w.ar, heap, Peek(0))));
      r := Next;
    }

    // ----- arrays, maps and strings -----

    // vm_get_subscript.
    method GetElement(target: Value, index: Value) returns (ok: bool)
      requires !GetSubscript(w.ar, heap, target, index).Unmodelled?
      modifies this`stack
      ensures match GetSubscript(w.ar, heap, target, index)
              case Done(v) => ok && stack == old(stack) + [v]
              case _ => !ok
    {
      if IsArray(heap, target) {
        var items := heap[target.address].items;
        var i := ArrayIndex(w.ar, |items|, index);
        if !i.Done? {
          return false;
        }
        Push(items[i.value]);
      } else if target.Text? {
        if !index.Num? || w.ar.asInt(index.d).None? {
          return false;
        }
        var c := Utf8.GetCharacter(target.s, w.ar.asInt(index.d).value);
        if !c.Found? {
          return false;
        }
        Push(Text(c.bytes));
      } else if IsMap(heap, target) {
        if !index.Text? || index.s !in heap[target.address].entries {
          return false;
        }
        Push(heap[target.address].entries[index.s]);
      } else {
        return false;
      }
      ok := true;
    }

    // vm_set_subscript: the value is on the top of the stack and stays there.
    method SetElement(target: Value, index: Value) returns (ok: bool)
      requires stack != [] && !SetSubscript(w.ar, heap, target, index, Peek(0)).Unmodelled?
      modifies this`heap
      ensures match SetSubscript(w.ar, old(heap), target, index, Peek(0))
              case Done(h) => ok && heap == h
              case _ => !ok
    {
      if IsArray(heap, target) {
        var items := heap[target.address].items;
        var i := ArrayIndex(w.ar, |items|, index);
        if !i.Done? {
          return false;
        }
        heap := heap[target.address := ArrayObj(items[i.value := Peek(0)])];
      } else if IsMap(heap, target) && index.Text? {
        heap := heap[target.address := MapObj(heap[target.address].entries[index.s := Peek(0)])];
      } else {
        return false;
      }
      ok := true;
    }

    method DoGetSub(ghost s: State) returns (r: Signal)
      requires Fetched(s, 17)
      modifies this
      ensures Shows(r, Step(w, s))
    {
      var target := Pop();
      var index := Pop();
      Popped(s.stack, stack, 2);
      var ok := GetElement(target, index);
      r := if ok then Next else Stopped;
    }

    method DoSetSub(ghost s: State) returns (r: Signal)
      requires Fetched(s, 18)
      modifies this
      ensures Shows(r, Step(w, s))
    {
      var target := Pop();
      var index := Pop();
      Popped(s.stack, stack, 2);
      var ok := SetElement(target, index);
      r := if ok then Next else Stopped;
    }

    method DoSetSubWithMath(ghost s: State) returns (r: Signal)
      requires Fetched(s, 19)
      modifies this
      ensures Shows(r, Step(w, s))
    {
      hide Decode, Execute, Step, UpdateSubscript;
      ReadsMath(w, s);
      var op := ReadByte();
      var target := Pop();
      var index := Pop();
      var rhs := Pop();
      Popped(s.stack, stack, 3);
      var ok := UpdateElement(op, target, index, rhs);
      r := if ok then Next else Stopped;
    }

    // The element, the operation, and the element again.
    method UpdateElement(op: Byte, target: Value, index: Value, rhs: Value) returns (ok: bool)
      requires OpOf(op).Some? && !UpdateSubscript(w.ar, heap, OpOf(op).value, target, index, rhs).Unmodelled?
      modifies this`stack, this`heap
      ensures match UpdateSubscript(w.ar, old(heap), OpOf(op).value, target, index, rhs)
              case Done((v, h)) => ok && stack == old(stack) + [v] && heap == h
              case _ => !ok
    {
      hide GetSubscript, SetSubscript, Math;
      ghost var below := stack;
      ok := GetElement(target, index);
      if !ok {
        return;
      }
      OnlyMath(w.ar, heap, op, Peek(0), rhs);
      Push(rhs);
      var done := ExecuteMath(op);
      if !done.Fine? {
        return false;
      }
      assert stack == below + [Peek(0)];
      ok := SetElement(target, index);
    }

    method DoMakeArray(ghost s: State) returns (r: Signal)
      requires Fetched(s, 20)
      modifies this
      ensures Shows(r, Step(w, s))
    {
      var count := ReadWord();
      var made := NewArray(heap, stack[|stack| - count..]);
      heap := made.1;
      stack := stack[..|stack| - count];
      Push(made.0);
      r := Next;
    }

    method DoMakeMap(ghost s: State) returns (r: Signal)
      requires Fetched(s, 21)
      modifies this
      ensures Shows(r, Step(w, s))
    {
      var count := ReadWord();
      var length: int := 2 * (count as int);
      var entries := ReadPairs(length);
      if entries.None? {
        return Stopped;
      }
      heap := heap + [MapObj(entries.value)];
      stack := stack[..|stack| - length];
      Push(Ref(|heap| - 1));
      r := Next;
    }

    // The loop of OP_MAKE_MAP over the keys and values on the top of the stack.
    method ReadPairs(count: nat) returns (r: Option<map<seq<Byte>, Value>>)
      requires count <= |stack| && count % 2 == 0
      ensures MapOf(stack[|stack| - count..], map[]) == if r.Some? then Done(r.value) else Failed
    {
      var start := |stack| - count;
      ghost var pairs := stack[start..];
      var entries: map<seq<Byte>, Value> := map[];
      var i := 0;
      assert pairs[0..] == pairs;
      while i < count
        invariant 0 <= i <= count && i % 2 == 0
        invariant MapOf(pairs, map[]) == MapOf(pairs[i..], entries)
      {
        assert pairs[i..][2..] == pairs[i + 2..];
        if !stack[start + i].Text? {
          return None;
        }
        entries := entries[stack[start + i].s := stack[start + i + 1]];
        i := i + 2;
      }
      r := Some(entries);
    }

    method DoMakeClosure(ghost s: State) returns (r: Signal)
      requires Fetched(s, 22)
      modifies this
      ensures Shows(r, Step(w, s))
    {
      var k := ReadShort();
      Push(Closure(Current().code.constants[k].f));
      r := Next;
    }

    // The number that bounds a slice.
    method ReadBound(v: Value) returns (k: Option<int>)
      ensures Bound(w.ar, Some(v)) == if k.Some? then Done(k) else Failed
    {
      k := if v.Num? then w.ar.asInt(v.d) else None;
    }

    // vm_make_slice, vm_make_slice_above and vm_make_slice_under after their operands are popped.
    method PushSlice(target: Value, start: Option<int>, end: Option<int>, ghost first: Option<Value>,
        ghost last: Option<Value>)
      returns (ok: bool)
      requires Bound(w.ar, first) == Done(start) && Bound(w.ar, last) == Done(end) && (start.Some? || end.Some?)
      requires !SliceOf(w.ar, heap, target, first, last).Unmodelled?
      modifies this`stack, this`heap
      ensures match SliceOf(w.ar, old(heap), target, first, last)
              case Done((v, h)) => ok && stack == old(stack) + [v] && heap == h
              case _ => !ok
    {
      if IsArray(heap, target) {
        var items := heap[target.address].items;
        var range := Utf8.SliceRange(|items|, start, end);
        if range.None? {
          return false;
        }
        var made := NewArray(heap, items[range.value.0..range.value.1]);
        heap := made.1;
        Push(made.0);
        return true;
      }
      if !target.Text? {
        return false;
      }
      var text: Option<seq<Byte>>;
      if start.Some? && end.Some? {
        text := Utf8.MakeSlice(target.s, start.value, end.value);
      } else if start.Some? {
        text := Utf8.MakeSliceAbove(target.s, start.value);
      } else {
        text := Utf8.MakeSliceUnder(target.s, end.value);
      }
      if text.None? {
        return false;
      }
      Push(Text(text.value));
      ok := true;
    }

    method DoMakeSlice(ghost s: State) returns (r: Signal)
      requires Fetched(s, 23)
      modifies this
      ensures Shows(r, Step(w, s))
    {
      hide Decode, Execute, Step;
      ReadsSlice(w, s);
      var target := Pop();
      var first := Pop();
      var start := ReadBound(first);
      if start.None? {
        return Stopped;
      }
      var last := Pop();
      var end := ReadBound(last);
      if end.None? {
        return Stopped;
      }
      Popped(s.stack, stack, 3);
      var ok := PushSlice(target, start, end, Some(first), Some(last));
      r := if ok then Next else Stopped;
    }

    method DoMakeSliceAbove(ghost s: State) returns (r: Signal)
      requires Fetched(s, 24)
      modifies this
      ensures Shows(r, Step(w, s))
    {
      hide Decode, Execute, Step;
      ReadsSlice(w, s);
      var target := Pop();
      var first := Pop();
      var start := ReadBound(first);
      if start.None? {
        return Stopped;
      }
      Popped(s.stack, stack, 2);
      var ok := PushSlice(target, start, None, Some(first), None);
      r := if ok then Next else Stopped;
    }

    method DoMakeSliceUnder(ghost s: State) returns (r: Signal)
      requires Fetched(s, 25)
      modifies this
      ensures Shows(r, Step(w, s))
    {
      hide Decode, Execute, Step;
      ReadsSlice(w, s);
      var target := Pop();
      var last := Pop();
      var end := ReadBound(last);
      if end.None? {
        return Stopped;
      }
      Popped(s.stack, stack, 2);
      var ok := PushSlice(target, None, end, None, Some(last));
      r := if ok then Next else Stopped;
    }

    method DoCopyBySlicing(ghost s: State) returns (r: Signal)
      requires Fetched(s, 26)
      modifies this
      ensures Shows(r, Step(w, s))
    {
      hide Decode, Execute, Step;
      ReadsSlice(w, s);
      var target := Pop();
      if IsArray(heap, target) {
        var items := heap[target.address].items;
        assert items[0..|items|] == items;
        var made := NewArray(heap, items);
        heap := made.1;
        Push(made.0);
      } else if target.Text? {
        WholeSlice(target.s);
        Push(target);
      } else {
        return Stopped;
      }
      r := Next;
    }

    // ----- control -----

    method DoCall(ghost s: State) returns (r: Signal)
      requires Fetched(s, 41)
      modifies this
      ensures Shows(r, Step(w, s))
    {
      hide Decode, Execute, Step;
      ReadsCall(w, s);
      var argc := ReadByte();
      var callee := Pop();
      if callee.Closure? {
        r := CallClosure(callee.f, argc);
      } else if callee.Native? {
        r := CallNative(callee.id, argc);
      } else {
        r := Stopped;
      }
    }

    // vm_call_closure, with the callee already popped.
    method CallClosure(f: Function, argc: Byte) returns (r: Signal)
      requires frames != [] && argc as int <= |stack|
      modifies this`frames
      ensures if |f.params| != argc || |old(frames)| == FRAMES_MAX then r == Stopped
              else r == Next && frames == old(frames) + [Frame(w.codeOf(f), 0, |stack| - argc)]
    {
      if |f.params| != argc || |frames| == FRAMES_MAX {
        return Stopped;
      }
      frames := frames + [Frame(w.codeOf(f), 0, |stack| - argc)];
      r := Next;
    }

    // vm_call_native.
    method CallNative(id: nat, argc: Byte) returns (r: Signal)
      requires argc as int <= |stack|
      modifies this`stack, this`heap
      ensures match w.native(id, old(heap), old(stack)[|old(stack)| - argc..])
              case Done((v, h)) => r == Next && stack == old(stack)[..|old(stack)| - argc] + [v] && heap == h
              case _ => r == Stopped
    {
      var result := w.native(id, heap, stack[|stack| - argc..]);
      if !result.Done? {
        return Stopped;
      }
      heap := result.value.1;
      stack := stack[..|stack| - argc];
      Push(result.value.0);
      r := Next;
    }

    method DoPopJumpIfFalse(ghost s: State) returns (r: Signal)
      requires Fetched(s, 42)
      modifies this
      ensures Shows(r, Step(w, s))
    {
      var offset := ReadShort();
      var test := Pop();
      if Falsey(w.ar, heap, test) {
        SetIp(Current().ip + offset);
      }
      r := Next;
    }

    method DoJumpIfFalse(ghost s: State) returns (r: Signal)
      requires Fetched(s, 43)
      modifies this
      ensures Shows(r, Step(w, s))
    {
      var offset := ReadShort();
      if Falsey(w.ar, heap, Peek(0)) {
        SetIp(Current().ip + offset);
      }
      r := Next;
    }

    method DoJump(ghost s: State) returns (r: Signal)
      requires Fetched(s, 44)
      modifies this
      ensures Shows(r, Step(w, s))
    {
      var offset := ReadShort();
      SetIp(Current().ip + offset);
      r := Next;
    }

    method DoLoop(ghost s: State) returns (r: Signal)
      requires Fetched(s, 45)
      modifies this
      ensures Shows(r, Step(w, s))
    {
      var offset := ReadShort();
      SetIp(Current().ip - offset);
      r := Next;
    }

    method DoReturn(ghost s: State) returns (r: Signal)
      requires Fetched(s, 46)
      modifies this
      ensures Shows(r, Step(w, s))
    {
      var returned := Pop();
      var frame := Current();
      frames := frames[..|frames| - 1];
      if frames == [] {
        return Finished(returned);
      }
      stack := stack[..frame.base];
      Push(returned);
      r := Next;
    }

    // ----- the dispatch loop -----

    // One turn: the opcode, then the case for it.
    method Dispatch() returns (r: Signal)
      requires frames != [] && Defined(View())
      modifies this
      ensures Shows(r, Step(w, old(View())))
    {
      hide Step;
      ghost var s := View();
      InCode(w, s);
      var op := ReadByte();
      if op < 14 {
        r := DispatchLocals(s, op);
      } else if op < 29 {
        r := DispatchObjects(s, op);
      } else if op <= 40 {
        r := DoOperate(s, op);
      } else {
        r := DispatchControl(s, op);
      }
    }

    method DispatchLocals(ghost s: State, op: Byte) returns (r: Signal)
      requires op < 14 && Fetched(s, op)
      modifies this
      ensures Shows(r, Step(w, s))
    {
      hide Step;
      NotCaptured(w, s);
      match op
      case 0 => r := DoPop(s);
      case 1 => r := DoDup(s);
      case 2 => r := DoSwp(s);
      case 3 => r := DoPushLiteral(s, op);
      case 4 => r := DoPushLiteral(s, op);
      case 5 => r := DoPushLiteral(s, op);
      case 6 => r := DoPushConst(s);
      case 7 => r := DoGetLocal(s);
      case 8 => r := DoSetLocal(s);
      case 9 => r := DoSetLocalWithMath(s);
    }

    method DispatchObjects(ghost s: State, op: Byte) returns (r: Signal)
      requires 14 <= op < 29 && Fetched(s, op)
      modifies this
      ensures Shows(r, Step(w, s))
    {
      hide Step;
      match op
      case 14 => r := DoGetGlobal(s);
      case 15 => r := DoSetGlobal(s);
      case 16 => r := DoSetGlobalWithMath(s);
      case 17 => r := DoGetSub(s);
      case 18 => r := DoSetSub(s);
      case 19 => r := DoSetSubWithMath(s);
      case 20 => r := DoMakeArray(s);
      case 21 => r := DoMakeMap(s);
      case 22 => r := DoMakeClosure(s);
      case 23 => r := DoMakeSlice(s);
      case 24 => r := DoMakeSliceAbove(s);
      case 25 => r := DoMakeSliceUnder(s);
      case 26 => r := DoCopyBySlicing(s);
      case 27 => r := DoNegate(s);
      case 28 => r := DoNot(s);
    }

    method DispatchControl(ghost s: State, op: Byte) returns (r: Signal)
      requires 41 <= op && Fetched(s, op)
      modifies this
      ensures Shows(r, Step(w, s))
    {
      hide Step;
      InCode(w, s);
      match op
      case 41 => r := DoCall(s);
      case 42 => r := DoPopJumpIfFalse(s);
      case 43 => r := DoJumpIfFalse(s);
      case 44 => r := DoJump(s);
      case 45 => r := DoLoop(s);
      case 46 => r := DoReturn(s);
    }

    /** vm_run: where the steps end after n of them, the loop ends the same way. */
    method Run(ghost n: nat) returns (r: Signal)
      requires frames != [] && (Vm.Run(w, View(), n).Halted? || Vm.Run(w, View(), n).Error?)
      modifies this
      ensures !r.Next? && Shows(r, Vm.Run(w, old(View()), n))
    {
      hide Step;
      ghost var m := n;
      r := Next;
      while r.Next?
        invariant r.Next? ==> frames != [] && Vm.Run(w, View(), m) == Vm.Run(w, old(View()), n)
        invariant !r.Next? ==> Shows(r, Vm.Run(w, old(View()), n))
        decreases if r.Next? then m + 1 else 0
      {
        r := Dispatch();
        m := if m > 0 then m - 1 else 0;
      }
    }
  }

  // Several values popped one after the other.
  lemma Popped(before: seq<Value>, after: seq<Value>, k: nat)
    requires 2 <= k <= 3 && k <= |before|
    requires after == if k == 2 then before[..|before| - 1][..|before| - 2]
        else before[..|before| - 1][..|before| - 2][..|before| - 3]
    ensures after == before[..|before| - k]
  {
  }

  // An opcode is read inside the code, and it is one of the known ones.
  lemma InCode(w: World, s: State)
    requires !Step(w, s).Malformed?
    ensures s.frame.ip < |s.frame.code.bytes| && s.frame.code.bytes[s.frame.ip] <= 46
  {
  }

  // The instructions on captured variables.
  lemma NotCaptured(w: World, s: State)
    requires !Step(w, s).Malformed? && !Step(w, s).Beyond?
    ensures s.frame.ip < |s.frame.code.bytes| && s.frame.code.bytes[s.frame.ip] !in {10, 11, 12, 13}
  {
  }

  lemma ReadsCall(w: World, s: State)
    requires !Step(w, s).Malformed?
    ensures s.frame.ip < |s.frame.code.bytes|
    ensures var b, ip := s.frame.code.bytes, s.frame.ip;
            b[ip] == 41 ==> ip + 2 <= |b| && Step(w, s) == ExecuteCall(w, Vm.Advance(s, CallOp(b[ip + 1])), b[ip + 1])
  {
    hide ExecuteCall;
  }

  lemma ReadsSlice(w: World, s: State)
    requires !Step(w, s).Malformed?
    ensures s.frame.ip < |s.frame.code.bytes|
    ensures var op := s.frame.code.bytes[s.frame.ip];
            23 <= op <= 26 ==>
              var i := if op == 23 then MakeSlice else if op == 24 then MakeSliceAbove
                  else if op == 25 then MakeSliceUnder else CopyBySlicing;
              Step(w, s) == ExecuteSlice(w, Vm.Advance(s, i), i)
  {
    hide ExecuteSlice;
  }

  lemma OnlyMath(ar: Arith, heap: Heap, op: Byte, lhs: Value, rhs: Value)
    ensures OpOf(op).Some? && !Math(ar, heap, OpOf(op).value, lhs, rhs).Unmodelled? ==> IsMath(OpOf(op).value)
  {
  }

  // The instructions that calculate and store.
  lemma ReadsMath(w: World, s: State)
    requires !Step(w, s).Malformed? && !Step(w, s).Beyond?
    ensures s.frame.ip < |s.frame.code.bytes|
    ensures var b, ip := s.frame.code.bytes, s.frame.ip;
            && (b[ip] == 9 ==> ip + 3 <= |b| && var i := SetLocalWithMath(b[ip + 1], b[ip + 2]);
                               Step(w, s) == ExecuteLocal(w, Vm.Advance(s, i), i))
            && (b[ip] == 16 ==> ip + 4 <= |b| && var i := SetGlobalWithMath(b[ip + 1], ShortAt(b, ip + 2));
                                Step(w, s) == ExecuteGlobal(w, Vm.Advance(s, i), i))
            && (b[ip] == 19 ==> ip + 2 <= |b| && var i := SetSubWithMath(b[ip + 1]);
                                Step(w, s) == ExecuteSubscript(w, Vm.Advance(s, i), i))
  {
    hide ExecuteLocal, ExecuteGlobal, ExecuteSubscript;
  }

  // A string is its own copy.
  lemma WholeSlice(s: seq<Byte>)
    ensures Utf8.Chars(s).Some? ==> Utf8.StringSlice(Utf8.Chars(s).value, None, None) == Some(s)
  {
    if Utf8.Chars(s).Some? {
      Utf8.CharsConcat(s);
      var cs := Utf8.Chars(s).value;
      assert cs[0..|cs|] == cs;
    }
  }

  // The two bytes of READ_SHORT and the four of READ_WORD.
  function ShortOf(hi: Byte, lo: Byte): Short {
    hi * 0x100 + lo
  }

  function WordOf(hi: Short, lo: Short): Word {
    hi * 0x1_0000 + lo
  }
}

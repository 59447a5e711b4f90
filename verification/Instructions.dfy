/**
 Each instruction of the compiler's output does to a configuration what evaluation does to its values.
 */
module Instructions {
  import opened Syntax
  import opened Arithmetic
  import opened Values
  import opened Primitives
  import opened Bytecode
  import opened Assembly
  import opened Codegen
  import opened Vm
  import opened Semantics
  import opened Machine

  lemma LoadStep(w: World, x: Activation, k: nat, v: Value, temps: seq<Value>, st: Store)
    requires Wellformed(w, x) && At(x.items, k, [WithConstant(Load, v)])
    ensures Step(w, Conf(w, x, Offset(x.items, k), temps, st)) == Image(w, x, Offset(x.items, k + 1), temps, Ok(v, st))
  {
    hide Wellformed, Offset, Step, Decode, ChunkOf;
    var j := StepConstant(w, x, k, Load, v, temps, st);
    var b := x.below + ValuesOf(st.env);
    assert (b + temps) + [v] == b + (temps + [v]);
  }

  lemma CloseStep(w: World, x: Activation, k: nat, f: Function, temps: seq<Value>, st: Store)
    requires Wellformed(w, x) && At(x.items, k, [WithConstant(Close, FunctionObj(f, 0))])
    ensures Step(w, Conf(w, x, Offset(x.items, k), temps, st)) == Image(w, x, Offset(x.items, k + 1), temps,
        Ok(Closure(f), st))
  {
    hide Wellformed, Offset, Step, Decode, ChunkOf;
    var j := StepConstant(w, x, k, Close, FunctionObj(f, 0), temps, st);
    var b := x.below + ValuesOf(st.env);
    assert (b + temps) + [Closure(f)] == b + (temps + [Closure(f)]);
  }

  lemma SimplePush(w: World, x: Activation, k: nat, i: Instr, v: Value, temps: seq<Value>, st: Store)
    requires Wellformed(w, x) && At(x.items, k, [Plain(i)])
    requires (i, v) in {(PushNull, Null), (PushTrue, Bool(true)), (PushFalse, Bool(false))}
    ensures Step(w, Conf(w, x, Offset(x.items, k), temps, st)) == Image(w, x, Offset(x.items, k + 1), temps, Ok(v, st))
  {
    hide Wellformed, Offset, Step, Decode, ChunkOf;
    StepPlain(w, x, k, i, temps, st);
    var b := x.below + ValuesOf(st.env);
    assert (b + temps) + [v] == b + (temps + [v]);
  }

  // ----- variables -----

  lemma GetLocalStep(w: World, x: Activation, k: nat, i: Byte, temps: seq<Value>, st: Store)
    requires Wellformed(w, x) && At(x.items, k, [Plain(GetLocal(i))]) && i < |st.env|
    ensures Step(w, Conf(w, x, Offset(x.items, k), temps, st)) ==
            Image(w, x, Offset(x.items, k + 1), temps, Ok(st.env[i].value, st))
  {
    hide Wellformed, Offset, Step, Decode, ChunkOf;
    StepPlain(w, x, k, GetLocal(i), temps, st);
    var b, v := x.below + ValuesOf(st.env), st.env[i].value;
    assert (b + temps)[|x.below| + i] == v;
    assert (b + temps) + [v] == b + (temps + [v]);
  }

  lemma ReadNameStep(w: World, x: Activation, k: nat, sc: Scope, name: Name, temps: seq<Value>, st: Store)
    requires Wellformed(w, x) && At(x.items, k, NameCode(sc, name))
    requires Names(st.env) == sc.names && |sc.names| <= LOCALS_MAX
    ensures |NameCode(sc, name)| == 1
    ensures Step(w, Conf(w, x, Offset(x.items, k), temps, st)) ==
            Image(w, x, Offset(x.items, k + 1), temps, ReadName(sc.top, name, st))
  {
    hide Wellformed, Offset, Step, Decode, ChunkOf, At, Conf, Image;
    if name == NULL_NAME {
      SimplePush(w, x, k, PushNull, Null, temps, st);
    } else if name == TRUE_NAME {
      SimplePush(w, x, k, PushTrue, Bool(true), temps, st);
    } else if name == FALSE_NAME {
      SimplePush(w, x, k, PushFalse, Bool(false), temps, st);
    } else {
      match IndexOf(sc.names, name)
      case Some(i) => GetLocalStep(w, x, k, i, temps, st);
      case None => GetGlobalStep(w, x, k, name, temps, st);
    }
  }

  lemma GetGlobalStep(w: World, x: Activation, k: nat, name: Name, temps: seq<Value>, st: Store)
    requires Wellformed(w, x) && At(x.items, k, [WithConstant(ReadGlobal, Text(name))])
    ensures Step(w, Conf(w, x, Offset(x.items, k), temps, st)) ==
            Image(w, x, Offset(x.items, k + 1), temps, if name in st.globals then Ok(st.globals[name], st)
                else Stopped(Failure))
  {
    hide Wellformed, Offset, Step, Decode, ChunkOf;
    var j := StepConstant(w, x, k, ReadGlobal, Text(name), temps, st);
    if name in st.globals {
      var b, v := x.below + ValuesOf(st.env), st.globals[name];
      assert (b + temps) + [v] == b + (temps + [v]);
    }
  }

  // Evaluation has no result for an operation whose failure the machine ignores.
  ghost predicate Matches(w: World, x: Activation, s: State, ip: nat, temps: seq<Value>, r: Result<Value>) {
    r == Stopped(Unclear) || Step(w, s) == Image(w, x, ip, temps, r)
  }

  lemma SetLocalStack(below: seq<Value>, env: seq<Binding>, i: nat, temps: seq<Value>, v: Value)
    requires i < |env|
    ensures (below + ValuesOf(env) + (temps + [v]))[|below| + i := v] ==
            below + ValuesOf(env[i := Binding(env[i].name, v)]) + (temps + [v])
  {
    var a := ValuesOf(env[i := Binding(env[i].name, v)]);
    assert a == ValuesOf(env)[i := v];
  }

  lemma SetLocalStep(w: World, x: Activation, k: nat, i: Byte, v: Value, temps: seq<Value>, st: Store)
    requires Wellformed(w, x) && At(x.items, k, [Plain(SetLocal(i))]) && i < |st.env|
    ensures Step(w, Conf(w, x, Offset(x.items, k), temps + [v], st)) ==
            Image(w, x, Offset(x.items, k + 1), temps, Ok(v, st.(env := st.env[i := Binding(st.env[i].name, v)])))
  {
    hide Wellformed, Offset, Step, Decode, ChunkOf, ValuesOf;
    StepPlain(w, x, k, SetLocal(i), temps + [v], st);
    SetLocalStack(x.below, st.env, i, temps, v);
  }

  lemma SetLocalMathExecutes(w: World, s: State, op: BinaryOp, i: Byte, b: seq<Value>, v: Value)
    requires s.stack == b + [v] && s.frame.base + i < |b|
    ensures Execute(w, s, SetLocalWithMath(OpByte(op), i)) ==
            match Math(w.ar, s.heap, op, b[s.frame.base + i], v)
            case Done((r, heap)) => Running(s.(stack := (b + [r])[s.frame.base + i := r], heap := heap))
            case Failed => Running(s.(stack := (b + [b[s.frame.base + i], v])[s.frame.base + i := v]))
            case Exits => Outcome.Error
            case Unmodelled => Beyond
  {
    hide Math;
    assert s.stack[..|b|] == b;
  }

  lemma SetLocalMathStep(w: World, x: Activation, k: nat, i: Byte, op: BinaryOp, v: Value, temps: seq<Value>, st: Store)
    requires Wellformed(w, x) && At(x.items, k, [Plain(SetLocalWithMath(OpByte(op), i))]) && i < |st.env|
    ensures var s := Conf(w, x, Offset(x.items, k), temps + [v], st);
            match LiftMath(Math(w.ar, st.heap, op, st.env[i].value, v), st)
            case Ok(r, st1) =>
              Step(w, s) == Image(w, x, Offset(x.items, k + 1), temps,
                  Ok(r, st1.(env := st.env[i := Binding(st.env[i].name, r)])))
            case Stopped(Failure) => Step(w, s) == Outcome.Error
            case _ => true
  {
    hide Wellformed, Offset, Step, Execute, Decode, ChunkOf, ValuesOf, Math;
    StepPlain(w, x, k, SetLocalWithMath(OpByte(op), i), temps + [v], st);
    var b := x.below + ValuesOf(st.env) + temps;
    assert x.below + ValuesOf(st.env) + (temps + [v]) == b + [v];
    ValueAt(x.below, st.env, i, temps);
    SetLocalMathExecutes(w, Conf(w, x, Offset(x.items, k + 1), temps + [v], st), op, i, b, v);
    match Math(w.ar, st.heap, op, st.env[i].value, v)
    case Done((r, heap)) =>
      SetLocalStack(x.below, st.env, i, temps, r);
      assert x.below + ValuesOf(st.env) + (temps + [r]) == b + [r];
    case _ =>
  }

  lemma ValueAt(below: seq<Value>, env: seq<Binding>, i: nat, temps: seq<Value>)
    requires i < |env|
    ensures (below + ValuesOf(env) + temps)[|below| + i] == env[i].value
  {
  }

  lemma SetGlobalMathExecutes(w: World, s: State, op: BinaryOp, j: Short, name: Name, b: seq<Value>, v: Value)
    requires s.stack == b + [v] && ConstantName(s, j) == Some(name) && name in s.globals
    ensures Execute(w, s, SetGlobalWithMath(OpByte(op), j)) ==
            match Math(w.ar, s.heap, op, s.globals[name], v)
            case Done((r, heap)) => Running(s.(stack := b + [r], heap := heap, globals := s.globals[name := r]))
            case Failed => Running(s.(stack := b + [s.globals[name], v], globals := s.globals[name := v]))
            case Exits => Outcome.Error
            case Unmodelled => Beyond
  {
    hide Math;
    assert s.stack[..|b|] == b;
  }

  lemma SetGlobalStep(w: World, x: Activation, k: nat, name: Name, v: Value, temps: seq<Value>, st: Store)
    requires Wellformed(w, x) && At(x.items, k, [WithConstant(WriteGlobal, Text(name))])
    ensures Step(w, Conf(w, x, Offset(x.items, k), temps + [v], st)) ==
            Image(w, x, Offset(x.items, k + 1), temps, Ok(v, st.(globals := st.globals[name := v])))
  {
    hide Wellformed, Offset, Step, Decode, ChunkOf, ValuesOf;
    var j := StepConstant(w, x, k, WriteGlobal, Text(name), temps + [v], st);
  }

  lemma {:induction false} UpdateGlobalStep(w: World, x: Activation, k: nat, name: Name, op: BinaryOp, v: Value,
      temps: seq<Value>, st: Store)
    requires Wellformed(w, x) && At(x.items, k, [WithConstant(UpdateGlobal(OpByte(op)), Text(name))])
    ensures Matches(w, x, Conf(w, x, Offset(x.items, k), temps + [v], st), Offset(x.items, k + 1), temps,
                    WriteName(w, true, name, None, Some(op), v, st))
  {
    hide Wellformed, Offset, Step, Decode, ChunkOf, ValuesOf, Math;
    var j := StepConstant(w, x, k, UpdateGlobal(OpByte(op)), Text(name), temps + [v], st);
    if name in st.globals {
      hide Execute;
      var b := x.below + ValuesOf(st.env) + temps;
      assert x.below + ValuesOf(st.env) + (temps + [v]) == b + [v];
      SetGlobalMathExecutes(w, Conf(w, x, Offset(x.items, k + 1), temps + [v], st), op, j, name, b, v);
      match Math(w.ar, st.heap, op, st.globals[name], v)
      case Done((r, heap)) => assert x.below + ValuesOf(st.env) + (temps + [r]) == b + [r];
      case _ =>
    }
  }

  // The value of a first assignment stays on the stack, where its slot will be looked up.
  lemma DeclareStep(w: World, x: Activation, k: nat, name: Name, v: Value, st: Store)
    requires Wellformed(w, x) && At(x.items, k, [Plain(Dup)])
    ensures Step(w, Conf(w, x, Offset(x.items, k), [v], st)) ==
            Image(w, x, Offset(x.items, k + 1), [], Ok(v, st.(env := st.env + [Binding(name, v)])))
  {
    hide Wellformed, Offset, Step, Decode, ChunkOf;
    StepPlain(w, x, k, Dup, [v], st);
    assert ValuesOf(st.env + [Binding(name, v)]) == ValuesOf(st.env) + [v];
    assert x.below + ValuesOf(st.env) + [v] + [v] == x.below + (ValuesOf(st.env) + [v]) + [v];
  }

  lemma WriteNameStep(w: World, x: Activation, k: nat, sc: Scope, name: Name, op: Option<BinaryOp>, v: Value,
      temps: seq<Value>, st: Store)
    requires Wellformed(w, x) && At(x.items, k, StoreNameCode(sc, name, op))
    requires |sc.names| <= |st.env| && |sc.names| <= LOCALS_MAX
    requires name !in sc.names && !sc.top ==> temps == []
    ensures |StoreNameCode(sc, name, op)| == 1
    ensures var at := IndexOf(sc.names, name);
            (at.Some? ==> at.value < |st.env|) &&
            Matches(w, x, Conf(w, x, Offset(x.items, k), temps + [v], st), Offset(x.items, k + 1), temps,
                    WriteName(w, sc.top, name, at, op, v, st))
  {
    hide Wellformed, Offset, Step, Decode, ChunkOf, Conf, At, Math;
    match IndexOf(sc.names, name)
    case Some(i) =>
      if op == None {
        SetLocalStep(w, x, k, i, v, temps, st);
      } else {
        SetLocalMathStep(w, x, k, i, op.value, v, temps, st);
      }
    case None =>
      if sc.top && op == None {
        SetGlobalStep(w, x, k, name, v, temps, st);
      } else if sc.top {
        UpdateGlobalStep(w, x, k, name, op.value, v, temps, st);
      } else {
        assert temps + [v] == [v];
        DeclareStep(w, x, k, name, v, st);
      }
  }

  // ----- values on the stack -----

  lemma MakeArrayStep(w: World, x: Activation, k: nat, vs: seq<Value>, temps: seq<Value>, st: Store)
    requires Wellformed(w, x) && |vs| < 0x1_0000_0000 && At(x.items, k, [Plain(MakeArray(|vs|))])
    ensures Step(w, Conf(w, x, Offset(x.items, k), temps + vs, st)) ==
            Image(w, x, Offset(x.items, k + 1), temps, Lift(Done(NewArray(st.heap, vs)), st))
  {
    hide Wellformed, Offset, Step, Decode, ChunkOf, ValuesOf, Push, Image, NewArray;
    StepPlain(w, x, k, MakeArray(|vs|), temps + vs, st);
    TopOf(w, x, Offset(x.items, k + 1), temps, vs, st);
    PushImage(w, x, Offset(x.items, k + 1), vs, temps, st, Done(NewArray(st.heap, vs)));
  }

  lemma MakeMapStep(w: World, x: Activation, k: nat, vs: seq<Value>, temps: seq<Value>, st: Store)
    requires Wellformed(w, x) && |vs| < 0x1_0000_0000 && |vs| % 2 == 0 && At(x.items, k, [Plain(MakeMap(|vs| / 2))])
    ensures Step(w, Conf(w, x, Offset(x.items, k), temps + vs, st)) ==
            Image(w, x, Offset(x.items, k + 1), temps, Lift(NewMap(st.heap, vs), st))
  {
    hide Wellformed, Offset, Step, Decode, ChunkOf, ValuesOf, Push, Image, NewMap;
    StepPlain(w, x, k, MakeMap(|vs| / 2), temps + vs, st);
    TopOf(w, x, Offset(x.items, k + 1), temps, vs, st);
    PushImage(w, x, Offset(x.items, k + 1), vs, temps, st, NewMap(st.heap, vs));
  }

  lemma GetSubStep(w: World, x: Activation, k: nat, index: Value, target: Value, temps: seq<Value>, st: Store)
    requires Wellformed(w, x) && At(x.items, k, [Plain(GetSub)])
    ensures Step(w, Conf(w, x, Offset(x.items, k), temps + [index, target], st)) ==
            Image(w, x, Offset(x.items, k + 1), temps, LiftValue(GetSubscript(w.ar, st.heap, target, index), st))
  {
    hide Wellformed, Offset, Step, Decode, ChunkOf, ValuesOf, PushValue, Image, GetSubscript;
    var args := [index, target];
    StepPlain(w, x, k, GetSub, temps + args, st);
    TopOf(w, x, Offset(x.items, k + 1), temps, args, st);
    PushValueImage(w, x, Offset(x.items, k + 1), args, temps, st, GetSubscript(w.ar, st.heap, target, index));
  }

  lemma SetSubStep(w: World, x: Activation, k: nat, v: Value, index: Value, target: Value, temps: seq<Value>, st: Store)
    requires Wellformed(w, x) && At(x.items, k, [Plain(SetSub)])
    ensures Step(w, Conf(w, x, Offset(x.items, k), temps + [v, index, target], st)) ==
            Image(w, x, Offset(x.items, k + 1), temps, WriteSubscript(w, None, target, index, v, st))
  {
    hide Wellformed, Offset, Step, Decode, ChunkOf, ValuesOf, SetSubscript;
    var args := [v, index, target];
    StepPlain(w, x, k, SetSub, temps + args, st);
    TopOf(w, x, Offset(x.items, k + 1), temps, args, st);
    var s := Conf(w, x, Offset(x.items, k + 1), temps + args, st).stack;
    assert s[..|s| - 2] == x.below + ValuesOf(st.env) + (temps + [v]);
  }

  lemma UpdateSubStep(w: World, x: Activation, k: nat, op: BinaryOp, v: Value, index: Value, target: Value,
      temps: seq<Value>, st: Store)
    requires Wellformed(w, x) && At(x.items, k, [Plain(SetSubWithMath(OpByte(op)))])
    ensures Step(w, Conf(w, x, Offset(x.items, k), temps + [v, index, target], st)) ==
            Image(w, x, Offset(x.items, k + 1), temps, WriteSubscript(w, Some(op), target, index, v, st))
  {
    hide Wellformed, Offset, Step, Decode, ChunkOf, ValuesOf, UpdateSubscript, Push, Image;
    var args := [v, index, target];
    StepPlain(w, x, k, SetSubWithMath(OpByte(op)), temps + args, st);
    TopOf(w, x, Offset(x.items, k + 1), temps, args, st);
    PushImage(w, x, Offset(x.items, k + 1), args, temps, st, UpdateSubscript(w.ar, st.heap, op, target, index, v));
  }

  lemma StoreSubStep(w: World, x: Activation, k: nat, op: Option<BinaryOp>, v: Value, index: Value, target: Value,
      temps: seq<Value>, st: Store)
    requires Wellformed(w, x) && At(x.items, k, StoreSubCode(op))
    ensures |StoreSubCode(op)| == 1
    ensures Step(w, Conf(w, x, Offset(x.items, k), temps + [v, index, target], st)) ==
            Image(w, x, Offset(x.items, k + 1), temps, WriteSubscript(w, op, target, index, v, st))
  {
    hide Wellformed, Offset, Step, Conf, At, Image, WriteSubscript;
    if op == None {
      SetSubStep(w, x, k, v, index, target, temps, st);
    } else {
      UpdateSubStep(w, x, k, op.value, v, index, target, temps, st);
    }
  }

  function OptionSeq(v: Option<Value>): seq<Value> {
    if v.Some? then [v.value] else []
  }

  lemma SliceExecutes(w: World, s: State, i: Instr, b: seq<Value>, start: Option<Value>, end: Option<Value>,
      target: Value)
    requires s.stack == b + (OptionSeq(end) + OptionSeq(start) + [target])
    requires i == if start == None then (if end == None then CopyBySlicing else MakeSliceUnder)
                  else (if end == None then MakeSliceAbove else MakeSlice)
    ensures Execute(w, s, i) == Push(s, b, SliceOf(w.ar, s.heap, target, start, end))
  {
    hide Push, SliceOf;
    var args := OptionSeq(end) + OptionSeq(start) + [target];
    assert |s.stack| == |b| + |args| && s.stack[..|b|] == b;
    assert s.stack[|s.stack| - 1] == args[|args| - 1];
  }

  lemma SliceStep(w: World, x: Activation, k: nat, from: Option<Expr>, to: Option<Expr>, start: Option<Value>,
      end: Option<Value>, target: Value, temps: seq<Value>, st: Store)
    requires Wellformed(w, x) && At(x.items, k, [Plain(SliceInstr(from, to))])
    requires (from == None <==> start == None) && (to == None <==> end == None)
    ensures Step(w, Conf(w, x, Offset(x.items, k), temps + (OptionSeq(end) + OptionSeq(start) + [target]), st)) ==
            Image(w, x, Offset(x.items, k + 1), temps, Lift(SliceOf(w.ar, st.heap, target, start, end), st))
  {
    hide Wellformed, Offset, Step, Execute, Decode, ChunkOf, ValuesOf, Push, Image, SliceOf, OptionSeq;
    var args := OptionSeq(end) + OptionSeq(start) + [target];
    var b := x.below + ValuesOf(st.env) + temps;
    StepPlain(w, x, k, SliceInstr(from, to), temps + args, st);
    assert x.below + ValuesOf(st.env) + (temps + args) == b + args;
    SliceExecutes(w, Conf(w, x, Offset(x.items, k + 1), temps + args, st), SliceInstr(from, to), b, start, end, target);
    PushImage(w, x, Offset(x.items, k + 1), args, temps, st, SliceOf(w.ar, st.heap, target, start, end));
  }

  lemma UnaryStep(w: World, x: Activation, k: nat, op: UnaryOp, v: Value, temps: seq<Value>, st: Store)
    requires Wellformed(w, x) && At(x.items, k, [Plain(UnaryInstr(op))])
    ensures Step(w, Conf(w, x, Offset(x.items, k), temps + [v], st)) ==
            Image(w, x, Offset(x.items, k + 1), temps, LiftValue(ApplyUnary(w.ar, st.heap, op, v), st))
  {
    hide Wellformed, Offset, Step, Decode, ChunkOf, ValuesOf, PushValue, Image, ApplyUnary;
    StepPlain(w, x, k, UnaryInstr(op), temps + [v], st);
    TopOf(w, x, Offset(x.items, k + 1), temps, [v], st);
    PushValueImage(w, x, Offset(x.items, k + 1), [v], temps, st, ApplyUnary(w.ar, st.heap, op, v));
  }

  lemma {:induction false} BinaryStep(w: World, x: Activation, k: nat, op: BinaryOp, a: Value, b: Value,
      temps: seq<Value>, st: Store)
    requires Wellformed(w, x) && At(x.items, k, [Plain(Operate(op))])
    ensures Step(w, Conf(w, x, Offset(x.items, k), temps + [a, b], st)) ==
            Image(w, x, Offset(x.items, k + 1), temps, Lift(Apply(w.ar, st.heap, op, a, b), st))
  {
    hide Wellformed, Offset, Step, Decode, ChunkOf, ValuesOf, Push, Image, Apply;
    StepPlain(w, x, k, Operate(op), temps + [a, b], st);
    TopOf(w, x, Offset(x.items, k + 1), temps, [a, b], st);
    PushImage(w, x, Offset(x.items, k + 1), [a, b], temps, st, Apply(w.ar, st.heap, op, a, b));
  }

  // ----- calls -----

  lemma CallExecutes(w: World, s: State, callee: Value, args: seq<Value>, b: seq<Value>)
    requires s.stack == b + (args + [callee]) && |args| < 0x100
    ensures Execute(w, s, CallOp(|args|)) ==
            match callee
            case Closure(f) =>
              if |f.params| != |args| || |s.saved| + 1 == FRAMES_MAX then Outcome.Error
              else Running(s.(saved := s.saved + [s.frame], frame := Frame(w.codeOf(f), 0, |b|), stack := b + args))
            case Native(id) => Push(s, b, w.native(id, s.heap, args))
            case FunctionObj(_, _) => Malformed
            case _ => Outcome.Error
  {
    hide Push;
    var n := |s.stack|;
    assert s.stack == b + args + [callee];
    assert s.stack[..n - 1] == b + args && s.stack[n - 1 - |args|..n - 1] == args && s.stack[..|b|] == b;
  }

  lemma CallOtherStep(w: World, x: Activation, k: nat, callee: Value, args: seq<Value>, temps: seq<Value>, st: Store)
    requires Wellformed(w, x) && |args| < 0x100 && At(x.items, k, [Plain(CallOp(|args|))])
    requires !Enters(w, |x.saved| + 1, callee, args)
    ensures Matches(w, x, Conf(w, x, Offset(x.items, k), temps + (args + [callee]), st), Offset(x.items, k + 1), temps,
                    CallOther(w, |x.saved| + 1, callee, args, st))
  {
    hide Offset, Step, Execute, Decode, ChunkOf, ValuesOf, Push, Faithful;
    var all, ip := args + [callee], Offset(x.items, k + 1);
    StepPlain(w, x, k, CallOp(|args|), temps + all, st);
    var b := x.below + ValuesOf(st.env) + temps;
    assert x.below + ValuesOf(st.env) + (temps + all) == b + all;
    CallExecutes(w, Conf(w, x, ip, temps + all, st), callee, args, b);
    if callee.Native? {
      PushImage(w, x, ip, all, temps, st, w.native(callee.id, st.heap, args));
    }
  }

  // Where the caller continues.
  function Callee(w: World, x: Activation, k: nat, f: Function, temps: seq<Value>, st: Store): Activation
    requires k < |x.items|
  {
    Activation(FunctionCode(w.ar, f), x.saved + [Frame(ChunkOf(w.ar, x.items), Offset(x.items, k + 1), |x.below|)],
               x.below + ValuesOf(st.env) + temps)
  }

  lemma EnterStep(w: World, x: Activation, k: nat, f: Function, args: seq<Value>, temps: seq<Value>, st: Store)
    requires Wellformed(w, x) && |args| < 0x100 && At(x.items, k, [Plain(CallOp(|args|))])
    requires w.codeOf(f) == ChunkOf(w.ar, FunctionCode(w.ar, f))
    requires Enters(w, |x.saved| + 1, Closure(f), args)
    ensures Step(w, Conf(w, x, Offset(x.items, k), temps + (args + [Closure(f)]), st)) ==
            Running(Conf(w, Callee(w, x, k, f, temps, st), 0, [], Store(Bind(f.params, args), st.globals, st.heap)))
  {
    hide Offset, Step, Execute, Decode, ChunkOf, Faithful, FunctionCode;
    var all := args + [Closure(f)];
    StepPlain(w, x, k, CallOp(|args|), temps + all, st);
    var b := x.below + ValuesOf(st.env) + temps;
    assert x.below + ValuesOf(st.env) + (temps + all) == b + all;
    CallExecutes(w, Conf(w, x, Offset(x.items, k + 1), temps + all, st), Closure(f), args, b);
    assert ValuesOf(Bind(f.params, args)) == args;
    assert b + args == b + args + [];
  }

  // A return drops everything the callee had on the stack.
  lemma LeaveStep(w: World, x: Activation, k: nat, f: Function, temps: seq<Value>, st: Store, j: nat, v: Value,
      st1: Store)
    requires k < |x.items|
    requires var y := Callee(w, x, k, f, temps, st); Wellformed(w, y) && At(y.items, j, [Plain(ReturnOp)])
    ensures var y := Callee(w, x, k, f, temps, st);
            Step(w, Conf(w, y, Offset(y.items, j), [v], st1)) ==
            Image(w, x, Offset(x.items, k + 1), temps, Ok(v, st1.(env := st.env)))
  {
    hide Offset, Step, Decode, ChunkOf, ValuesOf, FunctionCode, Faithful;
    var y := Callee(w, x, k, f, temps, st);
    StepPlain(w, y, j, ReturnOp, [v], st1);
    var b := x.below + ValuesOf(st.env);
    var s := y.below + ValuesOf(st1.env) + [v];
    assert s[..|y.below|] == y.below;
    assert (b + temps) + [v] == b + (temps + [v]);
    assert y.saved[..|y.saved| - 1] == x.saved;
  }

  lemma HaltStep(w: World, x: Activation, k: nat, v: Value, st: Store)
    requires Wellformed(w, x) && At(x.items, k, [Plain(ReturnOp)]) && x.saved == []
    ensures Step(w, Conf(w, x, Offset(x.items, k), [v], st)) == Halted(v, st.globals, st.heap)
  {
    hide Offset, Step, Decode, ChunkOf, ValuesOf, Faithful;
    StepPlain(w, x, k, ReturnOp, [v], st);
  }

  // ----- jumps -----

  lemma BranchStep(w: World, x: Activation, k: nat, o: Short, v: Value, st: Store)
    requires Wellformed(w, x) && At(x.items, k, [Plain(PopJumpIfFalse(o))])
    ensures Step(w, Conf(w, x, Offset(x.items, k), [v], st)) ==
            Running(Conf(w, x, Offset(x.items, k + 1) + (if Falsey(w.ar, st.heap, v) then o else 0), [], st))
  {
    hide Wellformed, Offset, Step, Decode, ChunkOf, ValuesOf, Falsey;
    StepPlain(w, x, k, PopJumpIfFalse(o), [v], st);
    var b := x.below + ValuesOf(st.env);
    assert b + [] == b && (b + [v])[..|b|] == b;
  }

  lemma JumpStep(w: World, x: Activation, k: nat, o: Short, st: Store)
    requires Wellformed(w, x) && At(x.items, k, [Plain(Jump(o))])
    ensures Step(w, Conf(w, x, Offset(x.items, k), [], st)) == Running(Conf(w, x, Offset(x.items, k + 1) + o, [], st))
  {
    hide Wellformed, Offset, Step, Decode, ChunkOf, ValuesOf;
    StepPlain(w, x, k, Jump(o), [], st);
  }

  lemma LoopStep(w: World, x: Activation, k: nat, o: Short, st: Store)
    requires Wellformed(w, x) && At(x.items, k, [Plain(Loop(o))]) && o <= Offset(x.items, k + 1)
    ensures Step(w, Conf(w, x, Offset(x.items, k), [], st)) == Running(Conf(w, x, Offset(x.items, k + 1) - o, [], st))
  {
    hide Wellformed, Offset, Step, Decode, ChunkOf, ValuesOf;
    StepPlain(w, x, k, Loop(o), [], st);
  }

  lemma PopStep(w: World, x: Activation, k: nat, v: Value, st: Store)
    requires Wellformed(w, x) && At(x.items, k, [Plain(Pop)])
    ensures Step(w, Conf(w, x, Offset(x.items, k), [v], st)) == Running(Conf(w, x, Offset(x.items, k + 1), [], st))
  {
    hide Wellformed, Offset, Step, Decode, ChunkOf, ValuesOf;
    StepPlain(w, x, k, Pop, [v], st);
    var b := x.below + ValuesOf(st.env);
    assert b + [] == b && (b + [v])[..|b|] == b;
  }

  // Popping the last local of a block.
  lemma DropStep(w: World, x: Activation, k: nat, st: Store)
    requires Wellformed(w, x) && At(x.items, k, [Plain(Pop)]) && st.env != []
    ensures Step(w, Conf(w, x, Offset(x.items, k), [], st)) ==
            Running(Conf(w, x, Offset(x.items, k + 1), [], st.(env := st.env[..|st.env| - 1])))
  {
    hide Wellformed, Offset, Step, Decode, ChunkOf;
    StepPlain(w, x, k, Pop, [], st);
    var n := |st.env| - 1;
    assert ValuesOf(st.env) == ValuesOf(st.env[..n]) + [st.env[n].value];
    var b := x.below + ValuesOf(st.env[..n]);
    assert x.below + ValuesOf(st.env) + [] == b + [st.env[n].value];
    assert b + [] == b;
  }
}

/**
 What the instructions on values do, stated by what can be seen of it: which value is read where after an array or a
 map was made or changed, what a slice shows, what an operator gives on the numbers that doubles stand for. The
 functions of module Primitives are shared by the source semantics and the machine; these laws fix them on their own.
 */
module Laws {
  import opened Syntax
  import opened Arithmetic
  import opened Values
  import opened Primitives
  import opened Vm
  import opened Semantics
  import Codegen
  import Compiler
  import Lexical
  import Upvalues
  import Utf8

  // ----- arrays -----

  /** a[k] counts from the front, and from the end where k is negative. */
  lemma ArrayReads(ar: Arith, heap: Heap, p: nat, xs: seq<Value>, d: Double, k: int)
    requires p < |heap| && heap[p] == ArrayObj(xs) && ar.asInt(d) == Some(k)
    ensures 0 <= k < |xs| ==> GetSubscript(ar, heap, Ref(p), Num(d)) == Done(xs[k])
    ensures -|xs| <= k < 0 ==> GetSubscript(ar, heap, Ref(p), Num(d)) == Done(xs[|xs| + k])
    ensures k >= |xs| ==> GetSubscript(ar, heap, Ref(p), Num(d)) == Failed
    ensures k < -|xs| ==> GetSubscript(ar, heap, Ref(p), Num(d)) == Unmodelled
  {
  }

  /** Reading a new array gives its items; what was on the heap before reads as before. */
  lemma NewArrayReads(ar: Arith, heap: Heap, xs: seq<Value>, d: Double, k: int)
    requires ar.asInt(d) == Some(k)
    ensures var (a, h) := NewArray(heap, xs);
            && (0 <= k < |xs| ==> GetSubscript(ar, h, a, Num(d)) == Done(xs[k]))
            && (-|xs| <= k < 0 ==> GetSubscript(ar, h, a, Num(d)) == Done(xs[|xs| + k]))
            && (k >= |xs| ==> GetSubscript(ar, h, a, Num(d)) == Failed)
            && heap <= h && a == Ref(|heap|)
  {
    var (a, h) := NewArray(heap, xs);
    ArrayReads(ar, h, |heap|, xs, d, k);
  }

  /** After a store at k, reading k gives the value stored; every other position and every other object reads as
      before. A position behind the end fails. */
  lemma ArrayStores(ar: Arith, heap: Heap, p: nat, xs: seq<Value>, d: Double, k: int, v: Value, e: Double, j: int)
    requires p < |heap| && heap[p] == ArrayObj(xs) && ar.asInt(d) == Some(k) && ar.asInt(e) == Some(j)
    ensures k >= |xs| ==> SetSubscript(ar, heap, Ref(p), Num(d), v) == Failed
    ensures -|xs| <= k < |xs| ==>
              var r := SetSubscript(ar, heap, Ref(p), Num(d), v);
              && r.Done? && |r.value| == |heap|
              && GetSubscript(ar, r.value, Ref(p), Num(d)) == Done(v)
              && GetSubscript(ar, r.value, Ref(p), Num(e)) ==
                 (var at, other := if k < 0 then |xs| + k else k, if j < 0 then |xs| + j else j;
                  if at == other then Done(v) else GetSubscript(ar, heap, Ref(p), Num(e)))
              && forall q | 0 <= q < |heap| && q != p :: r.value[q] == heap[q]
  {
    if -|xs| <= k < |xs| {
      var at := if k < 0 then |xs| + k else k;
      var h := heap[p := ArrayObj(xs[at := v])];
      assert SetSubscript(ar, heap, Ref(p), Num(d), v) == Done(h);
      ArrayReads(ar, h, p, xs[at := v], d, k);
      ArrayReads(ar, h, p, xs[at := v], e, j);
      ArrayReads(ar, heap, p, xs, e, j);
    }
  }

  /** An index that is not an integer number fails, and so does a subscript on what has no items. */
  lemma BadSubscripts(ar: Arith, heap: Heap, target: Value, index: Value, v: Value)
    ensures IsArray(heap, target) && (index.Num? ==> ar.asInt(index.d).None?) ==>
              GetSubscript(ar, heap, target, index) == Failed && SetSubscript(ar, heap, target, index, v) == Failed
    ensures !target.Ref? && !target.Text? ==> GetSubscript(ar, heap, target, index) == Failed
    ensures !target.Ref? ==> SetSubscript(ar, heap, target, index, v) == Failed
  {
  }

  // ----- maps -----

  /** m[s], for a key that is a string; any other key fails. */
  lemma MapReads(ar: Arith, heap: Heap, p: nat, m: map<seq<Byte>, Value>, index: Value)
    requires p < |heap| && heap[p] == MapObj(m)
    ensures GetSubscript(ar, heap, Ref(p), index) ==
            if index.Text? && index.s in m then Done(m[index.s]) else Failed
  {
  }

  /** After a store at a key, that key reads as the value stored and every other as before. */
  lemma MapStores(ar: Arith, heap: Heap, p: nat, m: map<seq<Byte>, Value>, key: Value, v: Value, other: Value)
    requires p < |heap| && heap[p] == MapObj(m)
    ensures !key.Text? ==> SetSubscript(ar, heap, Ref(p), key, v) == Failed
    ensures key.Text? ==>
              var r := SetSubscript(ar, heap, Ref(p), key, v);
              && r.Done? && |r.value| == |heap|
              && GetSubscript(ar, r.value, Ref(p), key) == Done(v)
              && (other != key ==>
                    GetSubscript(ar, r.value, Ref(p), other) == GetSubscript(ar, heap, Ref(p), other))
              && forall q | 0 <= q < |heap| && q != p :: r.value[q] == heap[q]
  {
  }

  // The keys at the even positions are strings.
  ghost predicate TextKeys(pairs: seq<Value>) {
    forall i: nat | 2 * i + 1 < |pairs| :: pairs[2 * i].Text?
  }

  lemma {:induction false} MapOfDone(pairs: seq<Value>, entries: map<seq<Byte>, Value>)
    ensures MapOf(pairs, entries) == Failed || MapOf(pairs, entries).Done?
    ensures MapOf(pairs, entries).Done? <==> TextKeys(pairs)
    decreases |pairs|
  {
    if |pairs| >= 2 {
      if pairs[0].Text? {
        MapOfDone(pairs[2..], entries[pairs[0].s := pairs[1]]);
        assert TextKeys(pairs) ==> TextKeys(pairs[2..]) by {
          if TextKeys(pairs) {
            forall i: nat | 2 * i + 1 < |pairs| - 2 ensures pairs[2..][2 * i].Text? {
              assert pairs[2..][2 * i] == pairs[2 * (i + 1)];
            }
          }
        }
        if TextKeys(pairs[2..]) {
          forall i: nat | 2 * i + 1 < |pairs| ensures pairs[2 * i].Text? {
            assert i > 0 ==> pairs[2..][2 * (i - 1)] == pairs[2 * i];
          }
        }
      } else {
        assert !pairs[2 * 0].Text?;
      }
    }
  }

  lemma {:induction false} MapOfOther(pairs: seq<Value>, entries: map<seq<Byte>, Value>, s: seq<Byte>)
    requires MapOf(pairs, entries).Done? && forall i: nat | 2 * i + 1 < |pairs| :: pairs[2 * i] != Text(s)
    ensures var m := MapOf(pairs, entries).value;
            (s in m <==> s in entries) && (s in m ==> m[s] == entries[s])
    decreases |pairs|
  {
    if |pairs| >= 2 {
      assert pairs[2 * 0] != Text(s);
      forall i: nat | 2 * i + 1 < |pairs| - 2 ensures pairs[2..][2 * i] != Text(s) {
        assert pairs[2..][2 * i] == pairs[2 * (i + 1)];
      }
      MapOfOther(pairs[2..], entries[pairs[0].s := pairs[1]], s);
    }
  }

  lemma {:induction false} MapOfLast(pairs: seq<Value>, entries: map<seq<Byte>, Value>, i: nat, s: seq<Byte>)
    requires MapOf(pairs, entries).Done? && 2 * i + 1 < |pairs| && pairs[2 * i] == Text(s)
    requires forall j: nat | i < j && 2 * j + 1 < |pairs| :: pairs[2 * j] != Text(s)
    ensures var m := MapOf(pairs, entries).value; s in m && m[s] == pairs[2 * i + 1]
    decreases |pairs|
  {
    var rest := pairs[2..];
    forall j: nat | i <= j && 2 * j + 1 < |rest| ensures rest[2 * j] != Text(s) {
      assert rest[2 * j] == pairs[2 * (j + 1)];
    }
    if i == 0 {
      MapOfOther(rest, entries[pairs[0].s := pairs[1]], s);
    } else {
      assert rest[2 * (i - 1)] == pairs[2 * i] && rest[2 * (i - 1) + 1] == pairs[2 * i + 1];
      MapOfLast(rest, entries[pairs[0].s := pairs[1]], i - 1, s);
    }
  }

  /** A map literal: the last pair with a key gives its value, a key that no pair has is missing, and the literal
      fails exactly if some key is not a string. */
  lemma {:induction false} NewMapReads(ar: Arith, heap: Heap, pairs: seq<Value>, i: nat, s: seq<Byte>)
    ensures NewMap(heap, pairs).Done? <==> TextKeys(pairs)
    ensures !TextKeys(pairs) ==> NewMap(heap, pairs) == Failed
    ensures TextKeys(pairs) ==>
              var (m, h) := NewMap(heap, pairs).value;
              && heap <= h && m == Ref(|heap|)
              && (2 * i + 1 < |pairs| && pairs[2 * i] == Text(s)
                  && (forall j: nat | i < j && 2 * j + 1 < |pairs| :: pairs[2 * j] != Text(s)) ==>
                    GetSubscript(ar, h, m, Text(s)) == Done(pairs[2 * i + 1]))
              && ((forall j: nat | 2 * j + 1 < |pairs| :: pairs[2 * j] != Text(s)) ==>
                    GetSubscript(ar, h, m, Text(s)) == Failed)
  {
    hide MapOf, TextKeys, GetSubscript;
    MapOfDone(pairs, map[]);
    if TextKeys(pairs) {
      var m := MapOf(pairs, map[]).value;
      var h := heap + [MapObj(m)];
      MapReads(ar, h, |heap|, m, Text(s));
      if 2 * i + 1 < |pairs| && pairs[2 * i] == Text(s)
          && (forall j: nat | i < j && 2 * j + 1 < |pairs| :: pairs[2 * j] != Text(s)) {
        MapOfLast(pairs, map[], i, s);
      }
      if forall j: nat | 2 * j + 1 < |pairs| :: pairs[2 * j] != Text(s) {
        MapOfOther(pairs, map[], s);
      }
    }
  }

  // ----- strings and slices -----

  /** s[k] is a character, counted from either end; behind the end it fails. */
  lemma TextReads(ar: Arith, heap: Heap, runes: seq<nat>, d: Double, k: int)
    requires Utf8.AllScalar(runes) && ar.asInt(d) == Some(k)
    ensures var s, n := Text(Utf8.EncodeAll(runes)), |runes|;
            && (0 <= k < n ==> GetSubscript(ar, heap, s, Num(d)) == Done(Text(Utf8.Encode(runes[k]))))
            && (-n <= k < 0 ==> GetSubscript(ar, heap, s, Num(d)) == Done(Text(Utf8.Encode(runes[n + k]))))
            && (k >= n ==> GetSubscript(ar, heap, s, Num(d)) == Failed)
  {
    hide Utf8.Chars, Utf8.Encode, Utf8.EncodeAll;
    Utf8.CharAtOfEncoded(runes, k);
  }

  // Where a bound of a slice of n items stands: at `open` if there is none, and from the end if it is negative.
  ghost predicate StandsAt(ar: Arith, bound: Option<Value>, n: nat, open: int, i: int) {
    match bound
    case None => i == open
    case Some(Num(d)) => ar.asInt(d).Some? && i == if ar.asInt(d).value < 0 then n + ar.asInt(d).value
        else ar.asInt(d).value
    case _ => false
  }

  /** a[from:to] is a new array of the items from i up to j, for i before the end, j at most the end and i <= j; a
      missing bound is the start or the end. Otherwise it fails. */
  lemma ArraySlices(ar: Arith, heap: Heap, p: nat, xs: seq<Value>, from: Option<Value>, to: Option<Value>, i: int,
      j: int)
    requires p < |heap| && heap[p] == ArrayObj(xs)
    requires StandsAt(ar, from, |xs|, 0, i) && StandsAt(ar, to, |xs|, |xs|, j)
    ensures SliceOf(ar, heap, Ref(p), from, to) ==
            if 0 <= i <= j <= |xs| && (from.Some? ==> i < |xs|) then
              Done((Ref(|heap|), heap + [ArrayObj(xs[i..j])]))
            else Failed
  {
  }

  /** s[from:to] is the string of the characters from i up to j, in the same way. */
  lemma TextSlices(ar: Arith, heap: Heap, runes: seq<nat>, from: Option<Value>, to: Option<Value>, i: int, j: int)
    requires Utf8.AllScalar(runes)
    requires StandsAt(ar, from, |runes|, 0, i) && StandsAt(ar, to, |runes|, |runes|, j)
    ensures SliceOf(ar, heap, Text(Utf8.EncodeAll(runes)), from, to) ==
            if 0 <= i <= j <= |runes| && (from.Some? ==> i < |runes|) then
              Done((Text(Utf8.EncodeAll(runes[i..j])), heap))
            else Failed
  {
    hide Utf8.Chars, Utf8.EncodeAll, Utf8.StringSlice;
    var start := Bound(ar, from).value;
    Utf8.SliceOfEncoded(runes, start, Bound(ar, to).value);
  }

  /** A bound that is not an integer number fails, and so does a slice of anything but an array or a string. */
  lemma BadSlices(ar: Arith, heap: Heap, target: Value, from: Option<Value>, to: Option<Value>, b: Value)
    requires b.Num? ==> ar.asInt(b.d).None?
    ensures from == Some(b) || to == Some(b) ==> SliceOf(ar, heap, target, from, to) == Failed
    ensures !IsArray(heap, target) && !target.Text? ==> SliceOf(ar, heap, target, from, to) == Failed
  {
  }

  // ----- numbers -----

  // The comparisons of these doubles are those of the numbers they stand for.
  ghost predicate Compared(ar: Arith, val: Double -> real, a: Double, b: Double) {
    && (ar.eq(a, b) <==> val(a) == val(b))
    && (ar.lt(a, b) <==> val(a) < val(b)) && (ar.lt(b, a) <==> val(b) < val(a))
    && (ar.lte(a, b) <==> val(a) <= val(b)) && (ar.lte(b, a) <==> val(b) <= val(a))
  }

  lemma ComparisonMeans(ar: Arith, val: Double -> real, heap: Heap, a: Double, b: Double)
    requires Compared(ar, val, a, b)
    ensures Apply(ar, heap, Lt, Num(a), Num(b)) == Done((Bool(val(a) < val(b)), heap))
    ensures Apply(ar, heap, Gt, Num(a), Num(b)) == Done((Bool(val(a) > val(b)), heap))
    ensures Apply(ar, heap, Lte, Num(a), Num(b)) == Done((Bool(val(a) <= val(b)), heap))
    ensures Apply(ar, heap, Gte, Num(a), Num(b)) == Done((Bool(val(a) >= val(b)), heap))
    ensures Apply(ar, heap, Eql, Num(a), Num(b)) == Done((Bool(val(a) == val(b)), heap))
    ensures Apply(ar, heap, Neq, Num(a), Num(b)) == Done((Bool(val(a) != val(b)), heap))
  {
  }

  // The operations give the numbers they should on these doubles.
  ghost predicate Computed(ar: Arith, val: Double -> real, pow: (real, real) -> real, a: Double, b: Double) {
    && val(ar.add(a, b)) == val(a) + val(b) && val(ar.sub(a, b)) == val(a) - val(b)
    && val(ar.mul(a, b)) == val(a) * val(b) && val(ar.pow(a, b)) == pow(val(a), val(b)) && val(ar.neg(a)) == -val(a)
    && (val(b) != 0.0 ==> val(ar.div(a, b)) == val(a) / val(b))
  }

  // The result is a number and the heap is as before.
  ghost predicate Gives(r: Res<(Value, Heap)>, heap: Heap, val: Double -> real, x: real) {
    r.Done? && r.value.0.Num? && val(r.value.0.d) == x && r.value.1 == heap
  }

  lemma ArithmeticMeans(ar: Arith, val: Double -> real, pow: (real, real) -> real, heap: Heap, a: Double, b: Double)
    requires Computed(ar, val, pow, a, b)
    ensures Gives(Apply(ar, heap, Add, Num(a), Num(b)), heap, val, val(a) + val(b))
    ensures Gives(Apply(ar, heap, Sub, Num(a), Num(b)), heap, val, val(a) - val(b))
    ensures Gives(Apply(ar, heap, Mul, Num(a), Num(b)), heap, val, val(a) * val(b))
    ensures Gives(Apply(ar, heap, Pow, Num(a), Num(b)), heap, val, pow(val(a), val(b)))
    ensures val(b) != 0.0 ==> Gives(Apply(ar, heap, Div, Num(a), Num(b)), heap, val, val(a) / val(b))
    ensures var r := ApplyUnary(ar, heap, Neg, Num(a)); r.Done? && r.value.Num? && val(r.value.d) == -val(a)
  {
  }

  // The remainder is never negative and smaller than the divisor.
  lemma RemainderMeans(ar: Arith, val: Double -> real, heap: Heap, a: Double, b: Double) returns (k: int, r: real)
    requires ExactRemainder(ar, val, a, b)
    ensures Gives(Apply(ar, heap, Mod, Num(a), Num(b)), heap, val, r)
    ensures val(a) == val(b) * k as real + r && 0.0 <= r && r < if val(b) < 0.0 then -val(b) else val(b)
  {
    hide ExactRemainder, RemEuclid;
    k := RemainderIsEuclidean(ar, val, a, b);
    r := val(RemEuclid(ar, a, b));
  }

  /** Comparisons and the operators other than + fail where an operand is not a number; + fails on two operands that
      are not both numbers or both arrays and of which none is a string. */
  lemma Refused(ar: Arith, heap: Heap, op: BinaryOp, l: Value, r: Value, v: Value)
    ensures !(l.Num? && r.Num?) && op !in {Add, Eql, Neq} ==> Apply(ar, heap, op, l, r) == Failed
    ensures !(l.Num? && r.Num?) && !l.Text? && !r.Text? && !(IsArray(heap, l) && IsArray(heap, r)) ==>
              Apply(ar, heap, Add, l, r) == Failed
    ensures !v.Num? ==> ApplyUnary(ar, heap, Neg, v) == Failed
  {
  }

  // ----- strings, arrays and truth -----

  // The strings null, true and false, by their ASCII codes, and the number as it is printed.
  lemma Joins(ar: Arith, heap: Heap, s: seq<Byte>, t: seq<Byte>, d: Double)
    ensures Apply(ar, heap, Add, Text(s), Text(t)) == Done((Text(s + t), heap))
    ensures Apply(ar, heap, Add, Text(s), Num(d)) == Done((Text(s + ar.format(d)), heap))
    ensures Apply(ar, heap, Add, Num(d), Text(s)) == Done((Text(ar.format(d) + s), heap))
    ensures Apply(ar, heap, Add, Text(s), Null) == Done((Text(s + [110, 117, 108, 108]), heap))
    ensures Apply(ar, heap, Add, Null, Text(s)) == Done((Text([110, 117, 108, 108] + s), heap))
    ensures Apply(ar, heap, Add, Text(s), Bool(true)) == Done((Text(s + [116, 114, 117, 101]), heap))
    ensures Apply(ar, heap, Add, Bool(true), Text(s)) == Done((Text([116, 114, 117, 101] + s), heap))
    ensures Apply(ar, heap, Add, Text(s), Bool(false)) == Done((Text(s + [102, 97, 108, 115, 101]), heap))
    ensures Apply(ar, heap, Add, Bool(false), Text(s)) == Done((Text([102, 97, 108, 115, 101] + s), heap))
  {
  }

  /** The sum of two arrays is a new array with the items of the left one first; the operands stay as they are. A
      string and a value without a string form end the process. */
  lemma JoinsArrays(ar: Arith, heap: Heap, p: nat, q: nat, xs: seq<Value>, ys: seq<Value>, s: seq<Byte>, v: Value)
    requires p < |heap| && heap[p] == ArrayObj(xs) && q < |heap| && heap[q] == ArrayObj(ys)
    ensures Apply(ar, heap, Add, Ref(p), Ref(q)) == Done((Ref(|heap|), heap + [ArrayObj(xs + ys)]))
    ensures v.Ref? || v.Native? || v.Closure? || v.FunctionObj? ==>
              Apply(ar, heap, Add, Text(s), v) == Exits && Apply(ar, heap, Add, v, Text(s)) == Exits
  {
  }

  // null, false, zero, and the empty string, array and map count as false; everything else as true.
  lemma Truth(ar: Arith, val: Double -> real, heap: Heap, v: Value)
    requires v.Num? ==> (ar.isZero(v.d) <==> val(v.d) == 0.0)
    ensures var empty := v.Ref? && v.address < |heap| && heap[v.address] in [ArrayObj([]), MapObj(map[])];
            var no := v in [Null, Bool(false), Text([])] || (v.Num? && val(v.d) == 0.0) || empty;
            Falsey(ar, heap, v) == no && ApplyUnary(ar, heap, Not, v) == Done(Bool(no))
  {
  }

  // ----- compound assignment to an element -----

  /** a[k] op= v stores a[k] op v, which is also its result, on the heap that the operator leaves; it fails where the
      operator does. */
  lemma ArrayUpdates(ar: Arith, heap: Heap, op: BinaryOp, p: nat, xs: seq<Value>, d: Double, k: int, v: Value)
    requires p < |heap| && heap[p] == ArrayObj(xs) && ar.asInt(d) == Some(k) && -|xs| <= k < |xs|
    requires op in {Add, Sub, Mul, Div, Pow, Mod}
    ensures var at := if k < 0 then |xs| + k else k;
            match Apply(ar, heap, op, xs[at], v)
            case Done((r, h)) =>
              && heap <= h
              && UpdateSubscript(ar, heap, op, Ref(p), Num(d), v) == Done((r, h[p := ArrayObj(xs[at := r])]))
            case other => UpdateSubscript(ar, heap, op, Ref(p), Num(d), v) == Failed
  {
    hide GetSubscript, SetSubscript, RemEuclid;
    var at := if k < 0 then |xs| + k else k;
    ArrayReads(ar, heap, p, xs, d, k);
    match Apply(ar, heap, op, xs[at], v)
    case Done((r, h)) => StoreAt(ar, h, p, xs, d, k, r);
    case _ =>
  }

  lemma StoreAt(ar: Arith, heap: Heap, p: nat, xs: seq<Value>, d: Double, k: int, v: Value)
    requires p < |heap| && heap[p] == ArrayObj(xs) && ar.asInt(d) == Some(k) && -|xs| <= k < |xs|
    ensures var at := if k < 0 then |xs| + k else k;
            SetSubscript(ar, heap, Ref(p), Num(d), v) == Done(heap[p := ArrayObj(xs[at := v])])
  {
  }

  // The same on a map, for a key it has; a missing key fails.
  lemma MapUpdates(ar: Arith, heap: Heap, op: BinaryOp, p: nat, m: map<seq<Byte>, Value>, s: seq<Byte>, v: Value)
    requires p < |heap| && heap[p] == MapObj(m) && op in {Add, Sub, Mul, Div, Pow, Mod}
    ensures s !in m ==> UpdateSubscript(ar, heap, op, Ref(p), Text(s), v) == Failed
    ensures s in m ==>
              match Apply(ar, heap, op, m[s], v)
              case Done((r, h)) =>
                && heap <= h
                && UpdateSubscript(ar, heap, op, Ref(p), Text(s), v) == Done((r, h[p := MapObj(m[s := r])]))
              case other => UpdateSubscript(ar, heap, op, Ref(p), Text(s), v) == Failed
  {
    hide RemEuclid;
  }

  // ----- names and limits -----

  /** null, true and false, by their ASCII codes, are these values, whatever the environment has. */
  lemma ReservedNames(top: bool, st: Store)
    ensures ReadName(top, [110, 117, 108, 108], st) == Ok(Null, st)
    ensures ReadName(top, [116, 114, 117, 101], st) == Ok(Bool(true), st)
    ensures ReadName(top, [102, 97, 108, 115, 101], st) == Ok(Bool(false), st)
  {
  }

  /** With as many arguments as parameters, a call is refused exactly if 64 frames are in use, and otherwise the frame
      of the function begins at its arguments. The source semantics has the same limit. */
  lemma FrameLimit(w: World, s: State, f: Function, args: seq<Value>, below: seq<Value>, depth: nat)
    requires s.stack == below + args + [Closure(f)] && |f.params| == |args| < 256
    ensures ExecuteCall(w, s, |args|) ==
            if |s.saved| + 1 == 64 then Outcome.Error
            else
              Running(s.(saved := s.saved + [s.frame], frame := Frame(w.codeOf(f), 0, |below|), stack := below + args))
    ensures w.admits(f) ==> (Enters(w, depth, Closure(f), args) <==> depth < 64)
  {
    assert s.stack[..|s.stack| - 1] == below + args;
  }

  /** A function has at most 255 locals, its parameters included: one more is not declared. It uses at most 255
      variables of the functions around it: one more ends the compiler. */
  lemma TableLimits(names: seq<Name>, x: Name, ups: seq<Upvalues.Descriptor>, d: Upvalues.Descriptor)
    ensures |names| < 255 ==> Codegen.Scope(false, names).Declare(x).names == names + [x]
    ensures |names| == 255 ==> Codegen.Scope(false, names).Declare(x).names == names
    ensures |ups| < 255 ==> Lexical.WithUpvalue(ups, d).0.Found?
    ensures |ups| >= 255 ==> Lexical.WithUpvalue(ups, d) == (Lexical.TooMany, ups)
  {
  }

  /** What the compiler refuses: more than 255 parameters or arguments, and a break or continue outside of a loop. */
  lemma CompilerLimits(f: Function, callee: Expr, args: seq<Expr>)
    ensures |f.params| > 255 ==> !Compiler.AcceptsE(Fn(f))
    ensures |args| > 255 ==> !Compiler.AcceptsE(Call(callee, args))
    ensures f.code.Break? || f.code.Continue? ==> !Compiler.AcceptsE(Fn(f))
    ensures |f.params| == 255 && f.code == Block([]) ==> Compiler.AcceptsE(Fn(f))
    ensures callee.Ident? && |args| == 255 && (forall a | a in args :: a.Ident?) ==>
        Compiler.AcceptsE(Call(callee, args))
  {
    if callee.Ident? && forall a | a in args :: a.Ident? {
      NamesAccepted(args);
    }
  }

  lemma {:induction false} NamesAccepted(args: seq<Expr>)
    requires forall a | a in args :: a.Ident?
    ensures Compiler.AcceptsAll(args)
  {
    if args != [] {
      NamesAccepted(args[1..]);
    }
  }
}

/**
 What single instructions compute on values: the vm_add ... vm_make_slice helpers of src/vm.c and the
 equality and truth tests of src/vm_util.c, on a heap of arrays and maps.
 */
module Primitives {
  import opened Syntax
  import opened Arithmetic
  import opened Values
  import Utf8

  // Failed: the helper reported an error and returned false. Exits: the whole process ended.
  // Unmodelled: the outcome depends on something this model leaves out.
  datatype Res<+T> = Done(value: T) | Failed | Exits | Unmodelled

  function Falsey(ar: Arith, heap: Heap, v: Value): bool {
    match v
    case Null => true
    case Bool(b) => !b
    case Num(d) => ar.isZero(d)
    case Text(s) => s == []
    case Ref(p) => p < |heap| && (match heap[p] case ArrayObj(xs) => xs == [] case MapObj(m) => m == map[])
    case _ => false
  }

  // ----- equality -----

  function AllPairs(heap: Heap): set<(nat, nat)> {
    set p: nat, q: nat | p < |heap| && q < |heap| :: (p, q)
  }

  /** values_equal. Two arrays are compared element by element; a pair of arrays met again while it is
      being compared would recurse for ever, so pairs are taken from unmet when their comparison starts. */
  function EqualFrom(ar: Arith, heap: Heap, a: Value, b: Value, unmet: set<(nat, nat)>): Res<bool>
    decreases |unmet|, 0, 0
  {
    match (a, b)
    case (Num(x), Num(y)) => Done(ar.eq(x, y))
    case (Ref(p), Ref(q)) =>
      if p == q then Done(true)
      else if p >= |heap| || q >= |heap| then Unmodelled
      else (match (heap[p], heap[q])
            case (ArrayObj(xs), ArrayObj(ys)) =>
              if |xs| != |ys| then Done(false)
              else if (p, q) !in unmet then Unmodelled
              else EqualAll(ar, heap, xs, ys, unmet - {(p, q)})
            case (MapObj(_), MapObj(_)) => Unmodelled
            case _ => Done(false))
    case (Closure(_), Closure(_)) => Unmodelled
    case _ => Done(a == b)
  }

  function EqualAll(ar: Arith, heap: Heap, xs: seq<Value>, ys: seq<Value>, unmet: set<(nat, nat)>): Res<bool>
    requires |xs| == |ys|
    decreases |unmet|, 1, |xs|
  {
    if xs == [] then Done(true)
    else match EqualFrom(ar, heap, xs[0], ys[0], unmet)
         case Done(true) => EqualAll(ar, heap, xs[1..], ys[1..], unmet)
         case other => other
  }

  function Equal(ar: Arith, heap: Heap, a: Value, b: Value): Res<bool> {
    EqualFrom(ar, heap, a, b, AllPairs(heap))
  }

  // ----- binary operators -----

  // vm_value_to_string; a value that has no string form ends the process.
  function ToString(ar: Arith, v: Value): Res<seq<Byte>> {
    match v
    case Text(s) => Done(s)
    case Num(d) => Done(ar.format(d))
    case Bool(b) => Done(if b then TRUE_NAME else FALSE_NAME)
    case Null => Done(NULL_NAME)
    case _ => Exits
  }

  function IsArray(heap: Heap, v: Value): bool {
    v.Ref? && v.address < |heap| && heap[v.address].ArrayObj?
  }

  function IsMap(heap: Heap, v: Value): bool {
    v.Ref? && v.address < |heap| && heap[v.address].MapObj?
  }

  function NewArray(heap: Heap, items: seq<Value>): (Value, Heap) {
    (Ref(|heap|), heap + [ArrayObj(items)])
  }

  function AddValues(ar: Arith, heap: Heap, l: Value, r: Value): Res<(Value, Heap)> {
    if l.Num? && r.Num? then Done((Num(ar.add(l.d, r.d)), heap))
    else if l.Text? then
      (match ToString(ar, r)
       case Done(t) => Done((Text(l.s + t), heap))
       case _ => Exits)
    else if r.Text? then
      (match ToString(ar, l)
       case Done(t) => Done((Text(t + r.s), heap))
       case _ => Exits)
    else if IsArray(heap, l) && IsArray(heap, r) then
      Done(NewArray(heap, heap[l.address].items + heap[r.address].items))
    else Failed
  }

  predicate IsMath(op: BinaryOp) {
    op.Add? || op.Sub? || op.Mul? || op.Div? || op.Pow? || op.Mod?
  }

  function NumericOp(ar: Arith, op: BinaryOp, a: Double, b: Double): Double
    requires IsMath(op)
  {
    match op
    case Add => ar.add(a, b)
    case Sub => ar.sub(a, b)
    case Mul => ar.mul(a, b)
    case Div => ar.div(a, b)
    case Pow => ar.pow(a, b)
    case Mod => RemEuclid(ar, a, b)
  }

  // vm_execute_math.
  function Math(ar: Arith, heap: Heap, op: BinaryOp, l: Value, r: Value): Res<(Value, Heap)> {
    if op.Add? then AddValues(ar, heap, l, r)
    else if !IsMath(op) then Unmodelled
    else if l.Num? && r.Num? then Done((Num(NumericOp(ar, op, l.d, r.d)), heap))
    else Failed
  }

  function Apply(ar: Arith, heap: Heap, op: BinaryOp, l: Value, r: Value): Res<(Value, Heap)> {
    match op
    case Eql => (match Equal(ar, heap, l, r)
                 case Done(b) => Done((Bool(b), heap))
                 case _ => Unmodelled)
    case Neq => (match Equal(ar, heap, l, r)
                 case Done(b) => Done((Bool(!b), heap))
                 case _ => Unmodelled)
    case Lt => if l.Num? && r.Num? then Done((Bool(ar.lt(l.d, r.d)), heap)) else Failed
    case Gt => if l.Num? && r.Num? then Done((Bool(ar.lt(r.d, l.d)), heap)) else Failed
    case Lte => if l.Num? && r.Num? then Done((Bool(ar.lte(l.d, r.d)), heap)) else Failed
    case Gte => if l.Num? && r.Num? then Done((Bool(ar.lte(r.d, l.d)), heap)) else Failed
    case _ => Math(ar, heap, op, l, r)
  }

  function ApplyUnary(ar: Arith, heap: Heap, op: UnaryOp, v: Value): Res<Value> {
    match op
    case Neg => if v.Num? then Done(Num(ar.neg(v.d))) else Failed
    case Not => Done(Bool(Falsey(ar, heap, v)))
  }

  // ----- subscripts -----

  function ArrayIndex(ar: Arith, count: nat, index: Value): (r: Res<nat>)
    ensures r.Done? ==> r.value < count
  {
    if !index.Num? then Failed
    else match ar.asInt(index.d)
         case None => Failed
         case Some(k) =>
           var i := Utf8.FromEnd(k, count);
           if i >= count then Failed
           else if i < 0 then Unmodelled // not rejected by the code, which then reads before the array
           else Done(i)
  }

  function GetSubscript(ar: Arith, heap: Heap, target: Value, index: Value): Res<Value> {
    if IsArray(heap, target) then
      var items := heap[target.address].items;
      match ArrayIndex(ar, |items|, index)
      case Done(i) => Done(items[i])
      case Failed => Failed
      case _ => Unmodelled
    else if target.Text? then
      (match Utf8.Chars(target.s)
       case None => Unmodelled
       case Some(cs) =>
         if !index.Num? || ar.asInt(index.d).None? then Failed
         else
           match Utf8.CharAt(cs, ar.asInt(index.d).value)
           case Found(c) => Done(Text(c))
           case OutOfBounds => Failed
           case Outside => Unmodelled)
    else if IsMap(heap, target) then
      var entries := heap[target.address].entries;
      if index.Text? && index.s in entries then Done(entries[index.s]) else Failed
    else Failed
  }

  function SetSubscript(ar: Arith, heap: Heap, target: Value, index: Value, v: Value): Res<Heap> {
    if IsArray(heap, target) then
      var items := heap[target.address].items;
      match ArrayIndex(ar, |items|, index)
      case Done(i) => Done(heap[target.address := ArrayObj(items[i := v])])
      case Failed => Failed
      case _ => Unmodelled
    else if IsMap(heap, target) then
      var entries := heap[target.address].entries;
      if index.Text? then Done(heap[target.address := MapObj(entries[index.s := v])]) else Failed
    else Failed
  }

  function MapOf(pairs: seq<Value>, entries: map<seq<Byte>, Value>): Res<map<seq<Byte>, Value>>
    decreases |pairs|
  {
    if |pairs| < 2 then Done(entries)
    else if !pairs[0].Text? then Failed
    else MapOf(pairs[2..], entries[pairs[0].s := pairs[1]])
  }

  function NewMap(heap: Heap, pairs: seq<Value>): Res<(Value, Heap)> {
    match MapOf(pairs, map[])
    case Done(m) => Done((Ref(|heap|), heap + [MapObj(m)]))
    case _ => Failed
  }

  // A slice bound: absent, an integer, or something that is rejected.
  function Bound(ar: Arith, v: Option<Value>): Res<Option<int>> {
    match v
    case None => Done(None)
    case Some(Num(d)) => if ar.asInt(d).Some? then Done(ar.asInt(d)) else Failed
    case _ => Failed
  }

  function SliceOf(ar: Arith, heap: Heap, target: Value, start: Option<Value>, end: Option<Value>): Res<(Value, Heap)> {
    match (Bound(ar, start), Bound(ar, end))
    case (Done(s), Done(e)) =>
      if IsArray(heap, target) then
        var items := heap[target.address].items;
        match Utf8.SliceRange(|items|, s, e)
        case None => Failed
        case Some((i, j)) => Done(NewArray(heap, items[i..j]))
      else if target.Text? then
        (match Utf8.Chars(target.s)
         case None => if s == None && e == None then Done((target, heap)) else Unmodelled
         case Some(cs) =>
           match Utf8.StringSlice(cs, s, e)
           case None => Failed
           case Some(t) => Done((Text(t), heap)))
      else Failed
    case _ => Failed
  }
}

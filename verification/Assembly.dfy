/**
 Symbolic bytecode: instructions whose constants are still values and whose loop exits are still open.
 Assemble turns a listing into a chunk the way the compiler's emit functions do (src/compiler.c), and
 FetchItem says what the dispatch loop finds at each item.
 */
module Assembly {
  import opened Syntax
  import opened Arithmetic
  import opened Values
  import opened Bytecode

  // What an instruction does with its constant.
  datatype Use = Load | ReadGlobal | WriteGlobal | UpdateGlobal(op: Byte) | Close

  datatype Item =
    | Plain(i: Instr)
    | WithConstant(use: Use, v: Value)
    | BreakHole    // a jump past the innermost loop
    | ContinueHole // a jump to the condition of the innermost loop

  function InstrOf(use: Use, k: Short): Instr {
    match use
    case Load => PushConst(k)
    case ReadGlobal => GetGlobal(k)
    case WriteGlobal => SetGlobal(k)
    case UpdateGlobal(op) => SetGlobalWithMath(op, k)
    case Close => MakeClosure(k, [])
  }

  function ItemWidth(it: Item): nat {
    match it
    case Plain(i) => Width(i)
    case WithConstant(use, _) => if use.UpdateGlobal? then 4 else 3
    case _ => 3
  }

  function Size(items: seq<Item>): nat {
    if items == [] then 0 else ItemWidth(items[0]) + Size(items[1..])
  }

  lemma {:induction false} SizeAppend(a: seq<Item>, b: seq<Item>)
    ensures Size(a + b) == Size(a) + Size(b)
  {
    if a == [] {
      assert a + b == b;
    } else {
      SizeAppend(a[1..], b);
      assert (a + b)[1..] == a[1..] + b;
    }
  }

  // The byte address of item k.
  function Offset(items: seq<Item>, k: nat): nat
    requires k <= |items|
  {
    Size(items[..k])
  }

  // ----- listings inside listings -----

  predicate At(p: seq<Item>, k: nat, items: seq<Item>) {
    k + |items| <= |p| && p[k..k + |items|] == items
  }

  lemma AtSplit(p: seq<Item>, k: nat, a: seq<Item>, b: seq<Item>)
    requires At(p, k, a + b)
    ensures At(p, k, a) && At(p, k + |a|, b)
  {
    assert p[k..k + |a|] == (a + b)[..|a|];
    assert p[k + |a|..k + |a| + |b|] == (a + b)[|a|..];
  }

  // The same with the second address named.
  lemma {:induction false} AtSplitAt(p: seq<Item>, k: nat, k1: nat, whole: seq<Item>, a: seq<Item>, b: seq<Item>)
    requires At(p, k, whole) && whole == a + b && k1 == k + |a|
    ensures At(p, k, a) && At(p, k1, b) && k1 + |b| <= |p|
    ensures Offset(p, k1) == Offset(p, k) + Size(a)
  {
    AtSplit(p, k, a, b);
    OffsetAdd(p, k, a);
  }

  lemma OffsetAdd(p: seq<Item>, k: nat, items: seq<Item>)
    requires At(p, k, items)
    ensures Offset(p, k + |items|) == Offset(p, k) + Size(items)
  {
    assert p[..k + |items|] == p[..k] + items;
    SizeAppend(p[..k], items);
  }

  lemma OffsetBound(p: seq<Item>, k: nat)
    requires k <= |p|
    ensures Offset(p, k) <= Size(p)
  {
    assert p == p[..k] + p[k..];
    SizeAppend(p[..k], p[k..]);
  }

  // ----- loop exits -----

  // A distance cut to the 16 bits of a jump operand.
  function Short16(distance: int): Short {
    distance % 0x1_0000
  }

  predicate HoleFree(items: seq<Item>) {
    forall it | it in items :: !it.BreakHole? && !it.ContinueHole?
  }

  /** The items with their open jumps filled in, where `back` bytes lie between the start of the loop and
      the first item and `ahead` bytes between the first item and the exit of the loop. */
  function Resolve(items: seq<Item>, back: int, ahead: int): (r: seq<Item>)
    ensures |r| == |items|
  {
    if items == [] then []
    else
      var w := ItemWidth(items[0]);
      [ResolveItem(items[0], back, ahead)] + Resolve(items[1..], back + w, ahead - w)
  }

  function ResolveItem(it: Item, back: int, ahead: int): Item {
    match it
    case BreakHole => Plain(Jump(Short16(ahead - 3)))
    case ContinueHole => Plain(Loop(Short16(back + 3)))
    case _ => it
  }

  lemma {:induction false} ResolveAppend(a: seq<Item>, b: seq<Item>, back: int, ahead: int, back1: int, ahead1: int)
    requires back1 == back + Size(a) && ahead1 == ahead - Size(a)
    ensures Resolve(a + b, back, ahead) == Resolve(a, back, ahead) + Resolve(b, back1, ahead1)
  {
    hide ItemWidth, ResolveItem;
    if a == [] {
      assert a + b == b;
    } else {
      var w := ItemWidth(a[0]);
      assert (a + b)[1..] == a[1..] + b;
      ResolveAppend(a[1..], b, back + w, ahead - w, back1, ahead1);
    }
  }

  lemma {:induction false} ResolveSize(items: seq<Item>, back: int, ahead: int)
    ensures Size(Resolve(items, back, ahead)) == Size(items) && HoleFree(Resolve(items, back, ahead))
  {
    if items != [] {
      var w := ItemWidth(items[0]);
      ResolveSize(items[1..], back + w, ahead - w);
    }
  }

  lemma {:induction false} ResolveHoleFree(items: seq<Item>, back: int, ahead: int)
    requires HoleFree(items)
    ensures Resolve(items, back, ahead) == items
  {
    if items != [] {
      var w := ItemWidth(items[0]);
      assert items[0] in items;
      ResolveHoleFree(items[1..], back + w, ahead - w);
    }
  }

  lemma HoleFreeAppend(a: seq<Item>, b: seq<Item>)
    ensures HoleFree(a + b) <==> HoleFree(a) && HoleFree(b)
  {
    if HoleFree(a + b) {
      forall it | it in a ensures it in a + b {}
      forall it | it in b ensures it in a + b {}
    }
  }

  predicate IsJump(i: Instr) {
    i.PopJumpIfFalse? || i.JumpIfFalse? || i.Jump? || i.Loop?
  }

  // No jumps, open or filled in, and nothing that drops a value.
  predicate Straight(items: seq<Item>) {
    forall it | it in items :: it.WithConstant? || (it.Plain? && !IsJump(it.i) && it.i != Pop)
  }

  lemma StraightAppend(a: seq<Item>, b: seq<Item>)
    requires Straight(a) && Straight(b)
    ensures Straight(a + b)
  {
  }

  lemma StraightHoleFree(a: seq<Item>)
    requires Straight(a)
    ensures HoleFree(a)
  {
  }

  // ----- assembling -----

  function Put(c: Chunk, i: Instr): Chunk {
    Chunk(c.bytes + Encode(i), c.constants)
  }

  // values_equal on constants, with each function literal a constant of its own: the source also merges function
  // objects that compare equal, as those of `fn {}` twice.
  predicate SameConstant(ar: Arith, a: Value, b: Value) {
    match (a, b)
    case (Num(x), Num(y)) => ar.eq(x, y)
    case (Text(s), Text(t)) => s == t
    case _ => false
  }

  // The first constant equal to v, or the end of the pool.
  function FindConstant(ar: Arith, pool: seq<Value>, v: Value): (k: nat)
    ensures k <= |pool|
    ensures k < |pool| ==> SameConstant(ar, pool[k], v)
  {
    if pool == [] || SameConstant(ar, pool[0], v) then 0 else 1 + FindConstant(ar, pool[1..], v)
  }

  // chunk_add_constant.
  function AddConstant(ar: Arith, pool: seq<Value>, v: Value): (r: seq<Value>)
    ensures pool <= r && FindConstant(ar, pool, v) < |r|
  {
    if FindConstant(ar, pool, v) < |pool| then pool else pool + [v]
  }

  /** Equal strings share a constant, and so do numbers that compare equal; nothing else does. */
  lemma ConstantsShared(ar: Arith, s: seq<Byte>, t: seq<Byte>, x: Double, y: Double, f: Function, g: Function)
    ensures AddConstant(ar, [Text(s)], Text(t)) == if s == t then [Text(s)] else [Text(s), Text(t)]
    ensures AddConstant(ar, [Num(x)], Num(y)) == if ar.eq(x, y) then [Num(x)] else [Num(x), Num(y)]
    ensures AddConstant(ar, [Num(x)], Text(t)) == [Num(x), Text(t)]
    ensures AddConstant(ar, [Text(s)], Num(y)) == [Text(s), Num(y)]
    ensures AddConstant(ar, [FunctionObj(f, 0)], FunctionObj(g, 0)) == [FunctionObj(f, 0), FunctionObj(g, 0)]
  {
  }

  function PutItem(ar: Arith, c: Chunk, it: Item): Chunk {
    match it
    case Plain(i) => Put(c, i)
    case WithConstant(use, v) =>
      Put(c.(constants := AddConstant(ar, c.constants, v)), InstrOf(use, Short16(FindConstant(ar, c.constants, v))))
    case _ => Put(c, Jump(0xffff)) // the placeholder
  }

  function Assemble(ar: Arith, c: Chunk, items: seq<Item>): Chunk
    decreases |items|
  {
    if items == [] then c else Assemble(ar, PutItem(ar, c, items[0]), items[1..])
  }

  const EMPTY: Chunk := Chunk([], [])

  function ChunkOf(ar: Arith, items: seq<Item>): Chunk {
    Assemble(ar, EMPTY, items)
  }

  predicate Extends(c: Chunk, r: Chunk) {
    c.bytes <= r.bytes && c.constants <= r.constants
  }

  lemma PutItemGrows(ar: Arith, c: Chunk, it: Item)
    ensures Extends(c, PutItem(ar, c, it)) && |PutItem(ar, c, it).bytes| == |c.bytes| + ItemWidth(it)
  {
    match it
    case Plain(i) => EncodeWidth(i);
    case WithConstant(use, v) => EncodeWidth(InstrOf(use, Short16(FindConstant(ar, c.constants, v))));
    case _ => EncodeWidth(Jump(0xffff));
  }

  lemma {:induction false} AssembleGrows(ar: Arith, c: Chunk, items: seq<Item>)
    ensures Extends(c, Assemble(ar, c, items)) && |Assemble(ar, c, items).bytes| == |c.bytes| + Size(items)
    decreases |items|
  {
    hide PutItem;
    if items != [] {
      PutItemGrows(ar, c, items[0]);
      AssembleGrows(ar, PutItem(ar, c, items[0]), items[1..]);
    }
  }

  lemma {:induction false} AssembleAppend(ar: Arith, c: Chunk, a: seq<Item>, b: seq<Item>)
    ensures Assemble(ar, c, a + b) == Assemble(ar, Assemble(ar, c, a), b)
    decreases |a|
  {
    hide PutItem;
    if a == [] {
      assert a + b == b;
    } else {
      AssembleAppend(ar, PutItem(ar, c, a[0]), a[1..], b);
      assert (a + b)[1..] == a[1..] + b;
    }
  }

  // ----- what the dispatch loop reads -----

  predicate IsConstant(items: seq<Item>, v: Value) {
    exists k | 0 <= k < |items| :: items[k].WithConstant? && items[k].v == v
  }

  /** The limits of the format: jump distances and constant indices fit 16 bits, and no two different
      constants compare equal (as 0.0 and -0.0 would). */
  ghost predicate Faithful(ar: Arith, items: seq<Item>) {
    && Size(items) < 0x1_0000
    && |ChunkOf(ar, items).constants| <= 0x1_0000
    && (forall v, u | IsConstant(items, v) && IsConstant(items, u) && SameConstant(ar, v, u) :: v == u)
    && (forall k | 0 <= k < |items| :: items[k].Plain? ==> !items[k].i.MakeClosure?)
    && (forall k | 0 <= k < |items| :: items[k].WithConstant? && items[k].use.Close? ==>
          items[k].v.FunctionObj? && items[k].v.upvalues == 0)
  }

  // Every constant of the pool was asked for by some item.
  lemma {:induction false} PoolFromItems(ar: Arith, items: seq<Item>, k: nat)
    requires k < |ChunkOf(ar, items).constants|
    ensures IsConstant(items, ChunkOf(ar, items).constants[k])
    decreases |items|
  {
    hide Put;
    if items != [] {
      var n := |items| - 1;
      var init, last := items[..n], items[n];
      assert items == init + [last];
      AssembleAppend(ar, EMPTY, init, [last]);
      PutConstants(ar, ChunkOf(ar, init), last);
      if k < |ChunkOf(ar, init).constants| {
        PoolFromItems(ar, init, k);
        var v := ChunkOf(ar, init).constants[k];
        var j :| 0 <= j < |init| && init[j].WithConstant? && init[j].v == v;
        assert items[j] == init[j];
      } else {
        assert items[n] == last && last.v == ChunkOf(ar, items).constants[k];
      }
    }
  }

  lemma PutConstants(ar: Arith, c: Chunk, it: Item)
    ensures PutItem(ar, c, it).constants == (if it.WithConstant? then AddConstant(ar, c.constants, it.v)
        else c.constants)
    ensures Assemble(ar, c, [it]) == PutItem(ar, c, it)
  {
    hide Encode;
    assert [it][1..] == [];
  }

  // The instruction that item k was assembled to.
  predicate Fetches(chunk: Chunk, ip: nat, it: Item) {
    match it
    case Plain(i) => Decode(chunk, ip) == Some(i)
    case WithConstant(use, v) =>
      exists k: Short | k < |chunk.constants| && chunk.constants[k] == v :: Decode(chunk, ip) == Some(InstrOf(use, k))
    case _ => true
  }

  lemma FetchPlain(chunk: Chunk, c: Chunk, i: Instr)
    requires Extends(Put(c, i), chunk) && !i.MakeClosure?
    ensures Decode(chunk, |c.bytes|) == Some(i)
  {
    hide Encode;
    var e := Encode(i);
    assert chunk.bytes[|c.bytes|..|c.bytes| + |e|] == (c.bytes + e)[|c.bytes|..];
    DecodeEncode(chunk, |c.bytes|, i);
  }

  lemma {:induction false} FetchConstant(ar: Arith, chunk: Chunk, c: Chunk, use: Use, v: Value)
    requires Extends(PutItem(ar, c, WithConstant(use, v)), chunk)
    requires |chunk.constants| <= 0x1_0000
    requires use.Close? ==> v.FunctionObj? && v.upvalues == 0
    requires FindConstant(ar, c.constants, v) < |c.constants| ==> c.constants[FindConstant(ar, c.constants, v)] == v
    ensures Fetches(chunk, |c.bytes|, WithConstant(use, v))
  {
    hide Encode, Decode;
    var k := FindConstant(ar, c.constants, v);
    var i := InstrOf(use, k);
    var pool := AddConstant(ar, c.constants, v);
    assert pool[k] == v && chunk.constants[k] == pool[k];
    var e := Encode(i);
    assert chunk.bytes[|c.bytes|..|c.bytes| + |e|] == (c.bytes + e)[|c.bytes|..];
    DecodeEncode(chunk, |c.bytes|, i);
  }

  // At the address of item k the dispatch loop reads that item.
  lemma FetchItem(ar: Arith, items: seq<Item>, k: nat)
    requires Faithful(ar, items) && k < |items|
    ensures Fetches(ChunkOf(ar, items), Offset(items, k), items[k])
  {
    hide Encode, Decode, PutItem, Put;
    var pre, it := items[..k], items[k];
    var c := ChunkOf(ar, pre);
    assert items == (pre + [it]) + items[k + 1..];
    AssembleAppend(ar, EMPTY, pre + [it], items[k + 1..]);
    AssembleAppend(ar, EMPTY, pre, [it]);
    PutConstants(ar, c, it);
    AssembleGrows(ar, EMPTY, pre);
    AssembleGrows(ar, PutItem(ar, c, it), items[k + 1..]);
    match it
    case Plain(i) =>
      PutPlain(ar, c, i);
      FetchPlain(ChunkOf(ar, items), c, i);
    case WithConstant(use, v) =>
      var j := FindConstant(ar, c.constants, v);
      if j < |c.constants| {
        PoolFromItems(ar, pre, j);
        IsConstantPrefix(items, k, c.constants[j]);
        assert IsConstant(items, v);
      }
      FetchConstant(ar, ChunkOf(ar, items), c, use, v);
    case _ =>
  }

  lemma PutPlain(ar: Arith, c: Chunk, i: Instr)
    ensures PutItem(ar, c, Plain(i)) == Put(c, i)
  {
  }

  lemma IsConstantPrefix(items: seq<Item>, k: nat, v: Value)
    requires k <= |items| && IsConstant(items[..k], v)
    ensures IsConstant(items, v)
  {
    var j :| 0 <= j < k && items[..k][j].WithConstant? && items[..k][j].v == v;
    assert items[j] == items[..k][j];
  }
}

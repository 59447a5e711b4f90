/**
 Back-patching: what a listing assembles to after the operands of its jumps have been overwritten
 (compiler_patch_jump and compiler_emit_loop in src/compiler.c).
 */
module Patching {
  import opened Syntax
  import opened Arithmetic
  import opened Values
  import opened Bytecode
  import opened Assembly

  const PLACEHOLDER: Short := 0xffff

  // Overwrites the two bytes at `at`; positions outside the chunk are left alone.
  function PatchAt(bytes: seq<Byte>, at: nat, o: Short): (r: seq<Byte>)
    ensures |r| == |bytes|
  {
    if at + 2 <= |bytes| then bytes[at := o / 0x100][at + 1 := o % 0x100] else bytes
  }

  // compiler_patch_jump when `count` bytes have been emitted.
  function PatchTo(bytes: seq<Byte>, hole: nat, count: nat): (r: seq<Byte>)
    ensures |r| == |bytes|
  {
    PatchAt(bytes, hole, Short16(count - hole - 2))
  }

  function PatchAll(bytes: seq<Byte>, holes: seq<nat>, count: nat): (r: seq<Byte>)
    ensures |r| == |bytes|
    decreases |holes|
  {
    if holes == [] then bytes else PatchAll(PatchTo(bytes, holes[0], count), holes[1..], count)
  }

  lemma {:induction false} PatchAllLast(bytes: seq<Byte>, holes: seq<nat>, hole: nat, count: nat)
    ensures PatchAll(bytes, holes + [hole], count) == PatchTo(PatchAll(bytes, holes, count), hole, count)
    decreases |holes|
  {
    hide PatchTo;
    if holes == [] {
      assert [hole][1..] == [];
    } else {
      PatchAllLast(PatchTo(bytes, holes[0], count), holes[1..], hole, count);
      assert (holes + [hole])[1..] == holes[1..] + [hole];
    }
  }

  predicate IsForward(i: Instr) {
    i.PopJumpIfFalse? || i.Jump?
  }

  function WithOffset(i: Instr, o: Short): Instr
    requires IsForward(i)
  {
    if i.Jump? then Jump(o) else PopJumpIfFalse(o)
  }

  // Assembling appends, and what it appends depends on the constants only.
  lemma {:induction false} AssembleShift(ar: Arith, bytes: seq<Byte>, pool: seq<Value>, items: seq<Item>)
    ensures var r := Assemble(ar, Chunk([], pool), items);
            Assemble(ar, Chunk(bytes, pool), items) == Chunk(bytes + r.bytes, r.constants)
    decreases |items|
  {
    hide PutItem;
    if items == [] {
      assert bytes + [] == bytes;
    } else {
      var first, c := PutItem(ar, Chunk([], pool), items[0]), PutItem(ar, Chunk(bytes, pool), items[0]);
      PutShift(ar, bytes, pool, items[0]);
      AssembleShift(ar, first.bytes, first.constants, items[1..]);
      AssembleShift(ar, c.bytes, c.constants, items[1..]);
      var rest := Assemble(ar, Chunk([], first.constants), items[1..]).bytes;
      assert (bytes + first.bytes) + rest == bytes + (first.bytes + rest);
    }
  }

  lemma PutShift(ar: Arith, bytes: seq<Byte>, pool: seq<Value>, it: Item)
    ensures var r := PutItem(ar, Chunk([], pool), it);
            PutItem(ar, Chunk(bytes, pool), it) == Chunk(bytes + r.bytes, r.constants)
  {
    hide Encode;
    assert forall i: Instr :: [] + Encode(i) == Encode(i);
  }

  // Patching the operand of the first instruction of a listing.
  lemma PatchFirst(ar: Arith, c: Chunk, i: Instr, o: Short, items: seq<Item>)
    requires IsForward(i)
    ensures var r := Assemble(ar, c, [Plain(i)] + items);
            && |c.bytes| + 3 <= |r.bytes|
            && Assemble(ar, c, [Plain(WithOffset(i, o))] + items) == Chunk(PatchAt(r.bytes, |c.bytes| + 1, o),
                r.constants)
  {
    var i' := WithOffset(i, o);
    assert ([Plain(i)] + items)[1..] == items && ([Plain(i')] + items)[1..] == items;
    AssembleShift(ar, c.bytes + Encode(i), c.constants, items);
    AssembleShift(ar, c.bytes + Encode(i'), c.constants, items);
    PatchBytes(c.bytes, i, o, Assemble(ar, Chunk([], c.constants), items).bytes);
  }

  lemma PatchBytes(before: seq<Byte>, i: Instr, o: Short, after: seq<Byte>)
    requires IsForward(i)
    ensures |Encode(i)| == 3
    ensures before + Encode(WithOffset(i, o)) + after == PatchAt(before + Encode(i) + after, |before| + 1, o)
  {
    var e, e' := Encode(i), Encode(WithOffset(i, o));
    assert e' == [e[0], o / 0x100, o % 0x100];
    hide Encode, WithOffset;
    var s := before + e + after;
    assert s[|before|] == e[0];
    assert PatchAt(s, |before| + 1, o) == before + e' + after;
  }

  // ----- loop exits by patching -----

  // The continues of a loop whose condition lies `back` bytes before the listing.
  function Continues(items: seq<Item>, back: int): (r: seq<Item>)
    ensures |r| == |items|
  {
    if items == [] then []
    else
      [if items[0].ContinueHole? then Plain(Loop(Short16(back + 3))) else items[0]]
      + Continues(items[1..], back + ItemWidth(items[0]))
  }

  // The operands of the open breaks of a listing at address `base`, as compile_break records them.
  function HolesAt(items: seq<Item>, base: nat): (r: seq<nat>)
    ensures forall h | h in r :: base < h && h + 2 <= base + Size(items)
  {
    if items == [] then []
    else (if items[0].BreakHole? then [base + 1] else []) + HolesAt(items[1..], base + ItemWidth(items[0]))
  }

  // The breaks of a loop whose end lies `ahead` bytes after the start of the listing.
  function Exits(items: seq<Item>, ahead: int): (r: seq<Item>)
    ensures |r| == |items|
  {
    if items == [] then []
    else
      [if items[0].BreakHole? then Plain(Jump(Short16(ahead - 3))) else items[0]]
      + Exits(items[1..], ahead - ItemWidth(items[0]))
  }

  lemma {:induction false} ResolveInTwoSteps(items: seq<Item>, back: int, ahead: int)
    ensures Exits(Continues(items, back), ahead) == Resolve(items, back, ahead)
  {
    if items != [] {
      var w := ItemWidth(items[0]);
      ResolveInTwoSteps(items[1..], back + w, ahead - w);
      assert Continues(items, back)[1..] == Continues(items[1..], back + w);
    }
  }

  lemma {:induction false} ContinuesAppend(a: seq<Item>, b: seq<Item>, back: int, back1: int)
    requires back1 == back + Size(a)
    ensures Continues(a + b, back) == Continues(a, back) + Continues(b, back1)
  {
    hide ItemWidth, Short16;
    if a == [] {
      assert a + b == b;
    } else {
      assert (a + b)[1..] == a[1..] + b;
      ContinuesAppend(a[1..], b, back + ItemWidth(a[0]), back1);
    }
  }

  lemma {:induction false} ContinuesSame(items: seq<Item>, back: int, base: nat)
    ensures Size(Continues(items, back)) == Size(items)
    ensures HolesAt(Continues(items, back), base) == HolesAt(items, base)
  {
    if items != [] {
      var w := ItemWidth(items[0]);
      ContinuesSame(items[1..], back + w, base + w);
      assert Continues(items, back)[1..] == Continues(items[1..], back + w);
    }
  }

  lemma {:induction false} HolesAppend(a: seq<Item>, b: seq<Item>, base: nat, base1: nat)
    requires base1 == base + Size(a)
    ensures HolesAt(a + b, base) == HolesAt(a, base) + HolesAt(b, base1)
  {
    hide ItemWidth;
    if a == [] {
      assert a + b == b;
    } else {
      assert (a + b)[1..] == a[1..] + b;
      HolesAppend(a[1..], b, base + ItemWidth(a[0]), base1);
    }
  }

  lemma {:induction false} Closed(items: seq<Item>, back: int, base: nat, ahead: int)
    requires HoleFree(items)
    ensures Continues(items, back) == items && HolesAt(items, base) == [] && Exits(items, ahead) == items
  {
    hide ItemWidth, Short16;
    if items != [] {
      var w := ItemWidth(items[0]);
      assert items[0] in items && HoleFree(items[1..]);
      assert items == [items[0]] + items[1..];
      Closed(items[1..], back + w, base + w, ahead - w);
    }
  }

  lemma {:induction false} ExitsAppend(a: seq<Item>, b: seq<Item>, ahead: int, ahead1: int)
    requires ahead1 == ahead - Size(a)
    ensures Exits(a + b, ahead) == Exits(a, ahead) + Exits(b, ahead1)
  {
    hide ItemWidth, Short16;
    if a == [] {
      assert a + b == b;
    } else {
      assert (a + b)[1..] == a[1..] + b;
      ExitsAppend(a[1..], b, ahead - ItemWidth(a[0]), ahead1);
    }
  }

  /** Patching every recorded break when `count` bytes have been emitted gives the chunk in which the
      breaks were jumps to that address from the start. */
  lemma {:induction false} PatchBreaks(ar: Arith, c: Chunk, items: seq<Item>, count: nat)
    ensures var r := Assemble(ar, c, items);
            Assemble(ar, c, Exits(items, count - |c.bytes|)) ==
                Chunk(PatchAll(r.bytes, HolesAt(items, |c.bytes|), count), r.constants)
    decreases |items|
  {
    hide PutItem, PatchAt;
    if items != [] {
      var base, w, rest := |c.bytes|, ItemWidth(items[0]), items[1..];
      var c1 := PutItem(ar, c, items[0]);
      PutItemGrows(ar, c, items[0]);
      PatchBreaks(ar, c1, rest, count);
      if items[0].BreakHole? {
        var o := Short16(count - base - 3);
        var c2 := PutItem(ar, c, Plain(Jump(o)));
        PutItemGrows(ar, c, Plain(Jump(o)));
        PatchBreaks(ar, c2, rest, count);
        PlaceholderFirst(ar, c, o, rest, items);
        assert HolesAt(items, base) == [base + 1] + HolesAt(rest, base + w);
      } else {
        assert HolesAt(items, base) == [] + HolesAt(rest, base + w) == HolesAt(rest, base + w);
      }
    }
  }

  lemma PlaceholderFirst(ar: Arith, c: Chunk, o: Short, rest: seq<Item>, items: seq<Item>)
    requires items != [] && items[0].BreakHole? && rest == items[1..]
    ensures var r := Assemble(ar, c, items);
            Assemble(ar, PutItem(ar, c, Plain(Jump(o))), rest) == Chunk(PatchAt(r.bytes, |c.bytes| + 1, o), r.constants)
  {
    hide Put, PatchAt;
    PatchFirst(ar, c, Jump(PLACEHOLDER), o, rest);
    assert ([Plain(Jump(PLACEHOLDER))] + rest)[1..] == rest && ([Plain(Jump(o))] + rest)[1..] == rest;
  }

  /** Patching a forward jump once everything it skips has been emitted makes it skip exactly that. */
  lemma PatchForward(ar: Arith, c: Chunk, i: Instr, items: seq<Item>, r: Chunk)
    requires IsForward(i) && r == Assemble(ar, Assemble(ar, c, [Plain(i)]), items)
    ensures |r.bytes| == |c.bytes| + 3 + Size(items)
    ensures Chunk(PatchTo(r.bytes, |c.bytes| + 1, |r.bytes|), r.constants) ==
            Assemble(ar, Assemble(ar, c, [Plain(WithOffset(i, Short16(Size(items))))]), items)
  {
    hide Assemble, PatchAt, Short16, WithOffset;
    var o := Short16(Size(items));
    AssembleAppend(ar, c, [Plain(i)], items);
    AssembleAppend(ar, c, [Plain(WithOffset(i, o))], items);
    PatchFirst(ar, c, i, o, items);
    AssembleGrows(ar, c, [Plain(i)] + items);
    ForwardSize(i, items);
  }

  lemma ForwardSize(i: Instr, items: seq<Item>)
    requires IsForward(i)
    ensures Size([Plain(i)] + items) == 3 + Size(items)
  {
    assert ([Plain(i)] + items)[1..] == items;
  }
}

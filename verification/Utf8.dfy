/**
 Strings of code points over bytes (src/vm_util.c) and the string cases of indexing and slicing (src/vm.c).
 The specification splits a byte string into characters; the methods walk the bytes as the code does.
 */
module Utf8 {
  import opened Syntax

  // ----- encoding and decoding one code point -----

  predicate IsScalar(rune: nat) {
    rune <= 0x10FFFF && !(0xD800 <= rune <= 0xDFFF)
  }

  function Encode(rune: nat): seq<Byte> {
    if rune <= 0x7F then [rune]
    else if rune <= 0x7FF then [0xC0 + rune / 0x40 % 0x20, 0x80 + rune % 0x40]
    else if rune <= 0xFFFF then [0xE0 + rune / 0x1000 % 0x10, 0x80 + rune / 0x40 % 0x40, 0x80 + rune % 0x40]
    else if rune <= 0x10FFFF then
      [0xF0 + rune / 0x40000 % 8, 0x80 + rune / 0x1000 % 0x40, 0x80 + rune / 0x40 % 0x40, 0x80 + rune % 0x40]
    else []
  }

  // The number of bytes a leading byte announces; 0 stands for a byte that leads no character.
  function Width(lead: Byte): (w: nat)
    ensures w <= 4
  {
    if lead < 0x80 then 1
    else if lead < 0xC0 then 0
    else if lead < 0xE0 then 2
    else if lead < 0xF0 then 3
    else if lead < 0xF8 then 4
    else 0
  }

  function Continuation(b: Byte): nat {
    var bits: int := b;
    bits % 0x40
  }

  // Decodes at the start of s and returns the rune with the number of bytes consumed.
  function Decode(s: seq<Byte>): (nat, nat)
    requires s != [] && Width(s[0]) <= |s|
  {
    var w := Width(s[0]);
    var lead: int := s[0];
    var rune: nat :=
      if w == 1 then lead
      else if w == 2 then lead % 0x20 * 0x40 + Continuation(s[1])
      else if w == 3 then lead % 0x10 * 0x1000 + Continuation(s[1]) * 0x40 + Continuation(s[2])
      else if w == 4 then
        lead % 8 * 0x40000 + Continuation(s[1]) * 0x1000 + Continuation(s[2]) * 0x40 + Continuation(s[3])
      else 0;
    (if 0xD800 <= rune <= 0xDFFF then 0 else rune, if w == 0 then 1 else w)
  }

  // A rune as its base-64 digits, which is what the encoding stores.
  lemma Digits(rune: nat)
    requires rune <= 0x10FFFF
    ensures var a, b, c := rune / 0x40, rune / 0x1000, rune / 0x40000;
            && rune == a * 0x40 + rune % 0x40
            && rune == b * 0x1000 + a % 0x40 * 0x40 + rune % 0x40
            && rune == c * 0x40000 + b % 0x40 * 0x1000 + a % 0x40 * 0x40 + rune % 0x40
            && c < 8
  {
    assert rune / 0x1000 == rune / 0x40 / 0x40;
    assert rune / 0x40000 == rune / 0x1000 / 0x40;
  }

  lemma DecodeTwo(s: seq<Byte>, lead: nat, x: nat)
    requires lead < 0x20 && x < 0x40 && |s| >= 2 && s[..2] == [0xC0 + lead, 0x80 + x]
    ensures Decode(s) == (lead * 0x40 + x, 2)
  {
    assert s[0] == s[..2][0] && s[1] == s[..2][1];
  }

  lemma DecodeThree(s: seq<Byte>, lead: nat, x: nat, y: nat)
    requires lead < 0x10 && x < 0x40 && y < 0x40 && |s| >= 3 && s[..3] == [0xE0 + lead, 0x80 + x, 0x80 + y]
    ensures var r := lead * 0x1000 + x * 0x40 + y; Decode(s) == (if 0xD800 <= r <= 0xDFFF then 0 else r, 3)
  {
    assert s[0] == s[..3][0] && s[1] == s[..3][1] && s[2] == s[..3][2];
  }

  lemma DecodeFour(s: seq<Byte>, lead: nat, x: nat, y: nat, z: nat)
    requires lead < 8 && x < 0x40 && y < 0x40 && z < 0x40 && |s| >= 4
    requires s[..4] == [0xF0 + lead, 0x80 + x, 0x80 + y, 0x80 + z]
    ensures var r := lead * 0x40000 + x * 0x1000 + y * 0x40 + z;
        Decode(s) == (if 0xD800 <= r <= 0xDFFF then 0 else r, 4)
  {
    hide Decode;
    assert s[0] == s[..4][0] && s[1] == s[..4][1] && s[2] == s[..4][2] && s[3] == s[..4][3];
    DecodeFourBytes(s, lead, x, y, z);
  }

  lemma DecodeFourBytes(s: seq<Byte>, lead: nat, x: nat, y: nat, z: nat)
    requires lead < 8 && x < 0x40 && y < 0x40 && z < 0x40 && |s| >= 4
    requires s[0] == 0xF0 + lead && s[1] == 0x80 + x && s[2] == 0x80 + y && s[3] == 0x80 + z
    ensures var r := lead * 0x40000 + x * 0x1000 + y * 0x40 + z;
        Decode(s) == (if 0xD800 <= r <= 0xDFFF then 0 else r, 4)
  {
  }

  // Decoding undoes encoding exactly on the Unicode scalar values (section 3 of RFC 3629).
  lemma DecodeEncode(rune: nat, rest: seq<Byte>)
    requires rune <= 0x10FFFF
    ensures Encode(rune) != [] && Width(Encode(rune)[0]) == |Encode(rune)|
    ensures Decode(Encode(rune) + rest).1 == |Encode(rune)|
    ensures Decode(Encode(rune) + rest).0 == rune <==> IsScalar(rune)
  {
    var s := Encode(rune) + rest;
    assert s[..|Encode(rune)|] == Encode(rune) && s[0] == Encode(rune)[0];
    Digits(rune);
    var a, b, c := rune / 0x40, rune / 0x1000, rune / 0x40000;
    if rune <= 0x7F {
      assert s[0] == rune;
    } else if rune <= 0x7FF {
      hide Decode;
      DecodeTwo(s, a, rune % 0x40);
    } else if rune <= 0xFFFF {
      hide Decode;
      DecodeThree(s, b, a % 0x40, rune % 0x40);
    } else {
      hide Decode;
      DecodeFour(s, c, b % 0x40, a % 0x40, rune % 0x40);
    }
  }

  method EncodeCharacter(rune: nat, result: array<Byte>) returns (n: nat)
    requires result.Length >= 4
    modifies result
    ensures n == |Encode(rune)| && result[..n] == Encode(rune)
  {
    if rune <= 0x7F {
      result[0] := rune;
      n := 1;
    } else if rune <= 0x7FF {
      result[0] := 0xC0 + rune / 0x40 % 0x20;
      result[1] := 0x80 + rune % 0x40;
      n := 2;
    } else if rune <= 0xFFFF {
      result[0] := 0xE0 + rune / 0x1000 % 0x10;
      result[1] := 0x80 + rune / 0x40 % 0x40;
      result[2] := 0x80 + rune % 0x40;
      n := 3;
    } else if rune <= 0x10FFFF {
      result[0] := 0xF0 + rune / 0x40000 % 8;
      result[1] := 0x80 + rune / 0x1000 % 0x40;
      result[2] := 0x80 + rune / 0x40 % 0x40;
      result[3] := 0x80 + rune % 0x40;
      n := 4;
    } else {
      n := 0;
    }
  }

  // ----- a string as a sequence of characters -----

  function Concat(cs: seq<seq<Byte>>): seq<Byte> {
    if cs == [] then [] else cs[0] + Concat(cs[1..])
  }

  // The characters of s, or None when the walk over leading bytes gets stuck or leaves the string.
  function Chars(s: seq<Byte>): (r: Option<seq<seq<Byte>>>)
    decreases |s|
  {
    if s == [] then Some([])
    else
      var w := Width(s[0]);
      if w == 0 || w > |s| then None
      else match Chars(s[w..])
           case None => None
           case Some(cs) => Some([s[..w]] + cs)
  }

  lemma {:induction false} ConcatAppend(a: seq<seq<Byte>>, b: seq<seq<Byte>>)
    ensures Concat(a + b) == Concat(a) + Concat(b)
  {
    if a == [] {
      assert a + b == b;
    } else {
      ConcatAppend(a[1..], b);
      assert a + b == [a[0]] + (a[1..] + b);
      ConcatStep(a[0], a[1..], b, a + b);
    }
  }

  lemma {:induction false} ConcatStep(c: seq<Byte>, a: seq<seq<Byte>>, b: seq<seq<Byte>>, ab: seq<seq<Byte>>)
    requires ab == [c] + (a + b) && Concat(a + b) == Concat(a) + Concat(b)
    ensures Concat(ab) == (c + Concat(a)) + Concat(b)
  {
    var rest, x, y := a + b, Concat(a), Concat(b);
    assert ab[1..] == rest && ab[0] == c;
    assert Concat(ab) == c + Concat(rest);
    assert c + (x + y) == (c + x) + y;
  }

  // The byte offset of character k.
  function Offset(cs: seq<seq<Byte>>, k: nat): nat
    requires k <= |cs|
  {
    |Concat(cs[..k])|
  }

  lemma {:induction false} CharsConcat(s: seq<Byte>)
    requires Chars(s).Some?
    ensures Concat(Chars(s).value) == s
    ensures forall c | c in Chars(s).value :: c != [] && |c| == Width(c[0])
  {
    hide Width;
    if s != [] {
      var w := Width(s[0]);
      var rest := Chars(s[w..]).value;
      CharsConcat(s[w..]);
      assert Chars(s).value == [s[..w]] + rest && s == s[..w] + s[w..];
      FirstChar(s[..w], rest);
    }
  }

  lemma FirstChar(c: seq<Byte>, rest: seq<seq<Byte>>)
    ensures Concat([c] + rest) == c + Concat(rest) && forall d | d in [c] + rest :: d == c || d in rest
  {
    assert ([c] + rest)[1..] == rest;
  }

  lemma {:induction false} Split(s: seq<Byte>, i: nat, j: nat)
    requires Chars(s).Some? && i <= j <= |Chars(s).value|
    ensures var cs := Chars(s).value;
            && Offset(cs, i) <= Offset(cs, j) <= |s|
            && s[Offset(cs, i)..Offset(cs, j)] == Concat(cs[i..j])
            && s[Offset(cs, j)..] == Concat(cs[j..])
            && s[..Offset(cs, j)] == Concat(cs[..j])
  {
    var cs := Chars(s).value;
    CharsConcat(s);
    OffsetIs(cs, i);
    OffsetIs(cs, j);
    hide *;
    assert cs[..i] + cs[i..j] == cs[..j] && cs[..j] + cs[j..] == cs;
    SplitOf(s, cs, cs[..i], cs[i..j], cs[..j], cs[j..]);
  }

  lemma {:induction false} SplitOf(s: seq<Byte>, cs: seq<seq<Byte>>, a: seq<seq<Byte>>, b: seq<seq<Byte>>,
      ab: seq<seq<Byte>>, c: seq<seq<Byte>>)
    requires Concat(cs) == s && a + b == ab && ab + c == cs
    ensures |Concat(a)| <= |Concat(ab)| <= |s|
    ensures s[|Concat(a)|..|Concat(ab)|] == Concat(b) && s[|Concat(ab)|..] == Concat(c)
        && s[..|Concat(ab)|] == Concat(ab)
  {
    hide *;
    ConcatAppend(a, b);
    ConcatAppend(ab, c);
    Cut(s, Concat(a), Concat(b), Concat(c));
  }

  lemma Cut(s: seq<Byte>, a: seq<Byte>, b: seq<Byte>, c: seq<Byte>)
    requires s == (a + b) + c
    ensures |a| <= |a + b| <= |s| && s[|a|..|a + b|] == b && s[|a + b|..] == c && s[..|a + b|] == a + b
  {
  }

  lemma OffsetIs(cs: seq<seq<Byte>>, k: nat)
    requires k <= |cs|
    ensures Offset(cs, k) == |Concat(cs[..k])|
  {
  }

  // string_utf8_skip_character: a byte that leads no character is not skipped.
  function Skip(s: seq<Byte>, at: nat): nat
    requires at < |s|
  {
    at + Width(s[at])
  }

  lemma SkipAdvances(s: seq<Byte>, k: nat)
    requires Chars(s).Some? && k < |Chars(s).value|
    ensures var cs := Chars(s).value;
            Offset(cs, k) < |s| && Skip(s, Offset(cs, k)) == Offset(cs, k + 1)
  {
    var cs := Chars(s).value;
    CharsConcat(s);
    Split(s, k, k + 1);
    assert cs[k..k + 1] == [cs[k]] && Concat([cs[k]]) == cs[k] + Concat([]);
    assert cs[k] in cs && s[Offset(cs, k)] == s[Offset(cs, k)..Offset(cs, k + 1)][0] == cs[k][0];
  }

  lemma OffsetEnds(s: seq<Byte>)
    requires Chars(s).Some?
    ensures Offset(Chars(s).value, 0) == 0 && Offset(Chars(s).value, |Chars(s).value|) == |s|
  {
    CharsConcat(s);
    assert Chars(s).value[..|Chars(s).value|] == Chars(s).value;
  }

  method CharactersCount(s: seq<Byte>) returns (count: nat)
    requires Chars(s).Some?
    ensures count == |Chars(s).value|
  {
    ghost var cs := Chars(s).value;
    var start := 0;
    count := 0;
    OffsetEnds(s);
    while start < |s|
      invariant count <= |cs| && start == Offset(cs, count)
      decreases |cs| - count
    {
      if count == |cs| {
        assert false;
      }
      SkipAdvances(s, count);
      start := Skip(s, start);
      count := count + 1;
      Split(s, count, |cs|);
    }
    if count < |cs| {
      SkipAdvances(s, count);
      assert false;
    }
  }

  // ----- indexing and slicing -----

  // A negative index counts from the end.
  function FromEnd(i: int, count: nat): int {
    if i < 0 then i + count else i
  }

  // Outside: not rejected, but read where the string has no bytes.
  datatype Element = Found(bytes: seq<Byte>) | OutOfBounds | Outside

  // s[index]. An index below -count is not rejected and gives the first character, if there is one.
  function CharAt(cs: seq<seq<Byte>>, index: int): Element {
    var i := FromEnd(index, |cs|);
    if 0 <= i < |cs| then Found(cs[i])
    else if i >= |cs| then OutOfBounds
    else if cs != [] then Found(cs[0])
    else Outside
  }

  // The range that s[start:end] denotes on count elements, for strings and arrays; None is an error.
  function SliceRange(count: nat, start: Option<int>, end: Option<int>): (r: Option<(nat, nat)>)
    ensures r.Some? ==> r.value.0 <= r.value.1 <= count
  {
    var from := if start.Some? then FromEnd(start.value, count) else 0;
    var to := if end.Some? then FromEnd(end.value, count) else count;
    if start.Some? && !(0 <= from < count) then None
    else if end.Some? && !(0 <= to <= count) then None
    else if from > to then None
    else Some((from, to))
  }

  function StringSlice(cs: seq<seq<Byte>>, start: Option<int>, end: Option<int>): Option<seq<Byte>> {
    match SliceRange(|cs|, start, end)
    case None => None
    case Some((i, j)) => Some(Concat(cs[i..j]))
  }

  method GetCharacter(s: seq<Byte>, index: int) returns (r: Element)
    requires Chars(s).Some?
    ensures r == CharAt(Chars(s).value, index)
    ensures r.Outside? <==> s == [] && index < 0
  {
    ghost var cs := Chars(s).value;
    var count := CharactersCount(s);
    var i := index;
    if i < 0 {
      i := i + count;
    }
    if i >= count {
      return OutOfBounds;
    }
    if s == [] {
      return Outside;
    }
    OffsetEnds(s);
    SkipAdvances(s, 0);
    var start := 0;
    var end := Skip(s, start);
    var j := 0;
    ghost var last := if i < 0 then 0 else i;
    while j < i
      invariant 0 <= j <= last
      invariant start == Offset(cs, j) && end == Offset(cs, j + 1)
    {
      SkipAdvances(s, j);
      SkipAdvances(s, j + 1);
      start := Skip(s, start);
      end := Skip(s, start);
      j := j + 1;
    }
    Split(s, last, last + 1);
    assert cs[last..last + 1] == [cs[last]] && Concat([cs[last]]) == cs[last] + Concat([]) == cs[last];
    r := Found(s[start..end]);
  }

  method MakeSlice(s: seq<Byte>, start: int, end: int) returns (r: Option<seq<Byte>>)
    requires Chars(s).Some?
    ensures r == StringSlice(Chars(s).value, Some(start), Some(end))
  {
    hide Chars, Concat, Offset, Skip;
    ghost var cs := Chars(s).value;
    var count := CharactersCount(s);
    var from, to := start, end;
    if from < 0 {
      from := from + count;
    }
    if to < 0 {
      to := to + count;
    }
    if from < 0 || from >= count || to < 0 || to > count || from > to {
      return None;
    }
    OffsetEnds(s);
    var b := 0;
    var c := 0;
    while c < from
      invariant 0 <= c <= from && b == Offset(cs, c)
    {
      c := c + 1;
      SkipAdvances(s, c - 1);
      b := Skip(s, b);
    }
    c := c + 1; // the test of the loop increments once more
    var first := b;
    while c <= to
      invariant from + 1 <= c <= to + 1 && b == Offset(cs, c - 1)
    {
      c := c + 1;
      SkipAdvances(s, c - 2);
      b := Skip(s, b);
    }
    Split(s, from, to);
    r := Some(s[first..b]);
  }

  method MakeSliceUnder(s: seq<Byte>, end: int) returns (r: Option<seq<Byte>>)
    requires Chars(s).Some?
    ensures r == StringSlice(Chars(s).value, None, Some(end))
  {
    ghost var cs := Chars(s).value;
    var count := CharactersCount(s);
    var to := end;
    if to < 0 {
      to := to + count;
    }
    if to < 0 || to > count {
      return None;
    }
    OffsetEnds(s);
    var b := 0;
    var c := 1;
    while c <= to
      invariant 1 <= c <= to + 1 && b == Offset(cs, c - 1)
    {
      SkipAdvances(s, c - 1);
      b := Skip(s, b);
      c := c + 1;
    }
    Split(s, 0, to);
    r := Some(s[..b]);
  }

  method MakeSliceAbove(s: seq<Byte>, start: int) returns (r: Option<seq<Byte>>)
    requires Chars(s).Some?
    ensures r == StringSlice(Chars(s).value, Some(start), None)
  {
    ghost var cs := Chars(s).value;
    var count := CharactersCount(s);
    var from := start;
    if from < 0 {
      from := from + count;
    }
    if from < 0 || from >= count {
      return None;
    }
    OffsetEnds(s);
    var b := 0;
    var c := 0;
    while c < from
      invariant 0 <= c <= from && b == Offset(cs, c)
    {
      c := c + 1;
      SkipAdvances(s, c - 1);
      b := Skip(s, b);
    }
    Split(s, 0, from);
    assert cs[from..|cs|] == cs[from..];
    r := Some(s[b..]);
  }

  // ----- strings of Unicode scalar values -----

  function Encoded(runes: seq<nat>): seq<seq<Byte>> {
    seq(|runes|, i requires 0 <= i < |runes| => Encode(runes[i]))
  }

  function EncodeAll(runes: seq<nat>): seq<Byte> {
    Concat(Encoded(runes))
  }

  ghost predicate AllScalar(runes: seq<nat>) {
    forall r | r in runes :: IsScalar(r)
  }

  // Walking the leading bytes finds exactly the encoded code points.
  lemma {:induction false} CharsOfEncoded(runes: seq<nat>)
    requires AllScalar(runes)
    ensures Chars(EncodeAll(runes)) == Some(Encoded(runes))
  {
    hide Encode, Width;
    if runes != [] {
      var head, tail := Encode(runes[0]), EncodeAll(runes[1..]);
      assert IsScalar(runes[0]);
      DecodeEncode(runes[0], tail);
      assert Encoded(runes) == [head] + Encoded(runes[1..]);
      CharsOfEncoded(runes[1..]);
      var s := head + tail;
      assert s[0] == head[0] && s[..|head|] == head && s[|head|..] == tail;
    }
  }

  // s[start:end] of an encoded string is the encoding of that slice of its code points.
  lemma SliceOfEncoded(runes: seq<nat>, start: Option<int>, end: Option<int>)
    requires AllScalar(runes)
    ensures Chars(EncodeAll(runes)).Some?
    ensures StringSlice(Chars(EncodeAll(runes)).value, start, end) ==
            match SliceRange(|runes|, start, end)
            case None => None
            case Some((i, j)) => Some(EncodeAll(runes[i..j]))
  {
    hide Encode, Chars;
    CharsOfEncoded(runes);
    match SliceRange(|runes|, start, end)
    case None =>
    case Some((i, j)) => assert Encoded(runes)[i..j] == Encoded(runes[i..j]);
  }

  lemma CharAtOfEncoded(runes: seq<nat>, index: int)
    requires AllScalar(runes)
    ensures Chars(EncodeAll(runes)).Some?
    ensures CharAt(Chars(EncodeAll(runes)).value, index) ==
            (var i := FromEnd(index, |runes|);
             if 0 <= i < |runes| then Found(Encode(runes[i]))
             else if i >= |runes| then OutOfBounds
             else if runes != [] then Found(Encode(runes[0]))
             else Outside)
  {
    hide Encode, Chars;
    CharsOfEncoded(runes);
  }

  // s[:j] + s[j:] == s holds exactly when j, counted from either end, is a valid index of s:
  // at j == len(s) the right half is an error.
  lemma SlicesPartition(runes: seq<nat>, j: int)
    requires AllScalar(runes)
    ensures Chars(EncodeAll(runes)).Some?
    ensures var cs := Chars(EncodeAll(runes)).value;
            var left, right := StringSlice(cs, None, Some(j)), StringSlice(cs, Some(j), None);
            (left.Some? && right.Some? && left.value + right.value == EncodeAll(runes)) <==> -|runes| <= j < |runes|
  {
    hide Encode, Chars, Concat;
    CharsOfEncoded(runes);
    var cs := Encoded(runes);
    var k := FromEnd(j, |runes|);
    if 0 <= k < |runes| {
      ConcatAppend(cs[..k], cs[k..]);
      assert cs[..k] + cs[k..] == cs && cs[0..k] == cs[..k] && cs[k..|cs|] == cs[k..];
    }
  }
}

/**
 String literals: how ast_display prints a string (src/ast.c), how the lexer finds the end of a literal and how
 parse_string (src/parser.c) reads its escapes.
 */
module Literals {
  import opened Syntax
  import opened Lexing

  const N: Byte := 110
  const R: Byte := 114
  const T: Byte := 116
  const B: Byte := 98
  const F: Byte := 102

  predicate Printable(c: Byte) { 32 <= c <= 126 }

  function Hex(d: Byte): Byte
    requires d < 16
  {
    if d < 10 then 48 + d else 55 + d
  }

  function EscapeByte(c: Byte): seq<Byte> {
    match c
    case 10 => [BACKSLASH, N]
    case 13 => [BACKSLASH, R]
    case 9 => [BACKSLASH, T]
    case 8 => [BACKSLASH, B]
    case 12 => [BACKSLASH, F]
    case 92 => [BACKSLASH, BACKSLASH]
    case 34 => [BACKSLASH, QUOTE]
    case _ => if Printable(c) then [c] else [BACKSLASH, 120, Hex(c / 16), Hex(c % 16)]
  }

  function Escape(s: seq<Byte>): seq<Byte> {
    if s == [] then [] else EscapeByte(s[0]) + Escape(s[1..])
  }

  // print_string_escaped, as the bytes it prints.
  method PrintEscaped(s: seq<Byte>) returns (out: seq<Byte>)
    ensures out == Escape(s)
  {
    out := [];
    for i := 0 to |s|
      invariant out + Escape(s[i..]) == Escape(s)
    {
      out := out + EscapeByte(s[i]);
    }
  }

  // The escapes that parse_string knows.
  function Code(c: Byte): Option<Byte> {
    match c
    case 92 => Some(BACKSLASH)
    case 110 => Some(10)
    case 114 => Some(13)
    case 116 => Some(9)
    case 101 => Some(27)
    case 118 => Some(11)
    case 98 => Some(8)
    case 102 => Some(12)
    case 34 => Some(QUOTE)
    case _ => None
  }

  function Before(s: seq<Byte>, rest: Option<seq<Byte>>): Option<seq<Byte>> {
    if rest.None? then None else Some(s + rest.value)
  }

  lemma BeforeTwice(s: seq<Byte>, t: seq<Byte>, rest: Option<seq<Byte>>)
    ensures Before(s, Before(t, rest)) == Before(s + t, rest) && Before([], rest) == rest
  {
    if rest.Some? {
      assert s + (t + rest.value) == s + t + rest.value && [] + rest.value == rest.value;
    }
  }

  // The string that the inside of a literal stands for. A backslash at its very end is dropped.
  function Unescape(body: seq<Byte>): Option<seq<Byte>> {
    if body == [] then Some([])
    else if body[0] != BACKSLASH then Before([body[0]], Unescape(body[1..]))
    else if |body| == 1 then Some([])
    else match Code(body[1])
         case None => None
         case Some(c) => Before([c], Unescape(body[2..]))
  }

  // The loop of parse_string.
  method ReadEscapes(body: seq<Byte>) returns (r: Option<seq<Byte>>)
    ensures r == Unescape(body)
  {
    var out, unescaping := [], false;
    BeforeTwice([], [], Unescape(body));
    assert body[0..] == body;
    for i := 0 to |body|
      invariant unescaping ==> i > 0 && body[i - 1] == BACKSLASH
      invariant Unescape(body) == Before(out, Unescape(if unescaping then body[i - 1..] else body[i..]))
    {
      var escaped := body[i];
      ghost var rest, start := Unescape(body[i + 1..]), if unescaping then i - 1 else i;
      BeforeTwice(out, [escaped], rest);
      assert body[start..][i - start] == escaped && body[start..][i - start + 1..] == body[i + 1..];
      if unescaping {
        if Code(escaped).Some? {
          BeforeTwice(out, [Code(escaped).value], rest);
        }
        match Code(escaped) {
          case None => return None;
          case Some(c) => out := out + [c];
        }
        unescaping := false;
      } else if escaped == BACKSLASH {
        unescaping := true;
      } else {
        out := out + [escaped];
      }
    }
    assert out + [] == out;
    return Some(out);
  }

  // ----- what the escapes stand for -----

  lemma {:induction false} UnescapePrefix(a: seq<Byte>, rest: seq<Byte>)
    requires 92 !in a
    ensures Unescape(a + rest) == Before(a, Unescape(rest))
  {
    BeforeTwice([], [], Unescape(rest));
    if a == [] {
      assert a + rest == rest;
    } else {
      UnescapePrefix(a[1..], rest);
      BeforeTwice([a[0]], a[1..], Unescape(rest));
      assert (a + rest)[1..] == a[1..] + rest && [a[0]] + a[1..] == a;
    }
  }

  /** What a string literal means, at its first backslash: the nine escapes \n \r \t \e \v \b \f \\ \" stand for
      one byte each, any other is an error, and so is whatever makes the rest one. */
  lemma {:induction false} EscapeMeans(a: seq<Byte>, c: Byte, b: seq<Byte>)
    requires 92 !in a
    ensures Unescape(b).None? ==> Unescape(a + [92, c] + b).None?
    ensures forall t | Unescape(b) == Some(t) ::
              Unescape(a + [92, c] + b) ==
              if c == 110 then Some(a + [10] + t)
              else if c == 114 then Some(a + [13] + t)
              else if c == 116 then Some(a + [9] + t)
              else if c == 101 then Some(a + [27] + t)
              else if c == 118 then Some(a + [11] + t)
              else if c == 98 then Some(a + [8] + t)
              else if c == 102 then Some(a + [12] + t)
              else if c == 92 then Some(a + [92] + t)
              else if c == 34 then Some(a + [34] + t)
              else None
  {
    var rest := [92, c] + b;
    assert a + [92, c] + b == a + rest;
    UnescapePrefix(a, rest);
    assert rest[0] == 92 && rest[1] == c && rest[2..] == b;
    if Code(c).Some? {
      BeforeTwice(a, [Code(c).value], Unescape(b));
    }
  }

  /** Without a backslash a literal means itself; a backslash at its very end is dropped. */
  lemma {:induction false} PlainMeans(a: seq<Byte>)
    requires 92 !in a
    ensures Unescape(a) == Some(a) && Unescape(a + [92]) == Some(a)
  {
    UnescapePrefix(a, []);
    UnescapePrefix(a, [92]);
    assert a + [] == a;
  }

  function HexValue(d: Byte): int {
    if 48 <= d <= 57 then d - 48 else d - 55
  }

  /** What is printed is printable. A byte that no escape can say is printed as two hexadecimal digits, 0 to 9 and
      A to F, after \x. */
  lemma {:induction false} PrintsPrintable(s: seq<Byte>)
    ensures forall c | c in Escape(s) :: 32 <= c <= 126
    ensures forall c | s == [c] && !(32 <= c <= 126) && c !in {8, 9, 10, 12, 13} ::
              var e := Escape(s);
              && |e| == 4 && e[..2] == [92, 120] && HexValue(e[2]) * 16 + HexValue(e[3]) == c
              && forall d | d in e[2..] :: 48 <= d <= 57 || 65 <= d <= 70
  {
    if s != [] {
      PrintsPrintable(s[1..]);
      assert |s| == 1 ==> Escape(s) == EscapeByte(s[0]) + [] == EscapeByte(s[0]);
    }
  }

  // ----- the round trip -----

  // What print_string_escaped writes in a form that parse_string can read.
  predicate Faithful(c: Byte) {
    Printable(c) || c in {8, 9, 10, 12, 13}
  }

  /** A printed string is read back exactly if it has only printable characters and \n \r \t \b \f; any other
      byte is printed as a \x escape, which is refused. */
  lemma {:induction false} EscapeRoundTrip(s: seq<Byte>)
    ensures Unescape(Escape(s)) == if forall c | c in s :: Faithful(c) then Some(s) else None
  {
    if s != [] {
      var c, rest := s[0], Escape(s[1..]);
      EscapeRoundTrip(s[1..]);
      EscapeByteRoundTrip(c, rest);
      assert s == [c] + s[1..];
    }
  }

  lemma {:induction false} EscapeByteRoundTrip(c: Byte, rest: seq<Byte>)
    ensures Unescape(EscapeByte(c) + rest) == if Faithful(c) then Before([c], Unescape(rest)) else None
  {
    var e := EscapeByte(c);
    var whole := e + rest;
    if |e| == 1 {
      assert whole[1..] == rest;
    } else {
      assert whole[1] == e[1] && (|e| == 2 ==> whole[2..] == rest);
    }
  }

  // Where the printed string stands in a text, the lexer reads over it.
  lemma {:induction false} EscapeLexes(b: seq<Byte>, i: nat, s: seq<Byte>)
    requires i + |Escape(s)| < |b| && b[i..i + |Escape(s)|] == Escape(s) && b[i + |Escape(s)|] == QUOTE
    ensures StringEnd(b, i, QUOTE) == Closed(i + |Escape(s)|)
    decreases |s|
  {
    hide StringEnd, EscapeByte;
    if s == [] {
      Closes(b, i);
    } else {
      var e, rest := EscapeByte(s[0]), Escape(s[1..]);
      var j := i + |e|;
      var here := b[i..i + |Escape(s)|];
      assert here[|e|..] == rest && here[|e|..] == b[j..j + |rest|];
      forall k | 0 <= k < |e| ensures b[i + k] == e[k] {
        assert here[k] == e[k];
      }
      EscapeLexes(b, j, s[1..]);
      EscapeByteLexes(b, i, s[0], e);
    }
  }

  lemma Closes(b: seq<Byte>, i: nat)
    requires i < |b| && b[i] == QUOTE
    ensures StringEnd(b, i, QUOTE) == Closed(i)
  {
  }

  lemma {:induction false} EscapeByteLexes(b: seq<Byte>, i: nat, c: Byte, e: seq<Byte>)
    requires e == EscapeByte(c) && i + |e| <= |b| && forall k | 0 <= k < |e| :: b[i + k] == e[k]
    ensures StringEnd(b, i, QUOTE) == StringEnd(b, i + |e|, QUOTE)
  {
    assert b[i + 0] == e[0];
    if |e| > 1 {
      assert b[i + 1] == e[1];
    }
    if |e| == 4 {
      HexPlain(c / 16);
      HexPlain(c % 16);
      assert b[i + 2] == e[2];
      assert b[i + 3] == e[3];
      Over(b, i + 2);
      Over(b, i + 3);
    }
  }

  lemma Over(b: seq<Byte>, i: nat)
    requires i < |b| && b[i] !in {0, NEWLINE, BACKSLASH, QUOTE}
    ensures StringEnd(b, i, QUOTE) == StringEnd(b, i + 1, QUOTE)
  {
  }

  lemma HexPlain(d: Byte)
    requires d < 16
    ensures Hex(d) !in {0, NEWLINE, BACKSLASH, QUOTE}
  {
  }

  lemma Within(b: seq<Byte>, i: nat, j: nat, k: nat, l: nat)
    requires i <= j <= |b| && k <= l <= j - i
    ensures b[i..j][k..l] == b[i + k..i + l]
  {
    forall m | 0 <= m < l - k ensures b[i..j][k..l][m] == b[i + k..i + l][m] {
      assert b[i..j][k..l][m] == b[i..j][k + m];
    }
  }

  /** A printed string between quotes is one string token whose range is the printed text, and parse_string
      makes of that range the original string if it is faithful, and reports an error otherwise. */
  lemma {:induction false} LiteralRoundTrip(b: seq<Byte>, i: nat, s: seq<Byte>, next: nat)
    requires next == i + |Escape(s)| + 2 <= |b| && b[i..next] == [QUOTE] + Escape(s) + [QUOTE]
    ensures var t := Token(StringTok, i + 1, next - 1);
            && TokenAt(b, i, t, next)
            && Unescape(b[t.start..t.end]) == if forall c | c in s :: Faithful(c) then Some(s) else None
  {
    hide Escape, Unescape;
    var e := Escape(s);
    var here := b[i..next];
    assert here[0] == QUOTE && here[|e| + 1] == QUOTE && here[1..|e| + 1] == e;
    Within(b, i, next, 1, |e| + 1);
    EscapeLexes(b, i + 1, s);
    EscapeRoundTrip(s);
  }
}

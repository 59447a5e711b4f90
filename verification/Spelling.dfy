/**
 How programs are written in bytes, token by token and with the ASCII codes written out. Between tokens there may be
 blanks and comments; where two tokens touch, the first must end where the second begins. Module Meanings proves that
 the lexer reads exactly this.
 */
module Spelling {
  import opened Syntax
  import G = Grammar
  import Literals

  // strtoull and strtod, with None for what parse_int and parse_float reject.
  datatype Numerals = Numerals(integer: seq<Byte> -> Option<Bits64>, double: seq<Byte> -> Option<Double>)

  predicate IsBlank(c: Byte) { c in {9, 10, 13, 32} }

  // A letter or an underscore.
  predicate IsLetter(c: Byte) { 97 <= c <= 122 || 65 <= c <= 90 || c == 95 }

  predicate IsWordByte(c: Byte) { IsLetter(c) || 48 <= c <= 57 }

  predicate IsNumeralByte(c: Byte) { IsWordByte(c) || c == 46 }

  predicate Word(s: seq<Byte>) {
    s != [] && IsLetter(s[0]) && forall c | c in s :: IsWordByte(c)
  }

  predicate Numeral(s: seq<Byte>) {
    s != [] && 48 <= s[0] <= 57 && forall c | c in s :: IsNumeralByte(c)
  }

  // No end of a line and no such quote, except after a backslash.
  predicate Enclosed(s: seq<Byte>, quote: Byte)
    decreases |s|
  {
    if s == [] then true
    else if s[0] == 92 then |s| >= 2 && Enclosed(s[2..], quote)
    else s[0] != 10 && s[0] != quote && Enclosed(s[1..], quote)
  }

  // if, else, while, break, continue, fn, return.
  predicate IsReserved(s: seq<Byte>) {
    s in {[105, 102], [101, 108, 115, 101], [119, 104, 105, 108, 101], [98, 114, 101, 97, 107],
      [99, 111, 110, 116, 105, 110, 117, 101], [102, 110], [114, 101, 116, 117, 114, 110]}
  }

  // A byte that begins no token: $ & ; ? @ \ ^ ` | ~, a control byte or one outside ASCII.
  predicate Stray(s: seq<Byte>) {
    |s| == 1 && (s[0] in {36, 38, 59, 63, 64, 92, 94, 96, 124, 126} || s[0] >= 127
                 || (s[0] < 32 && s[0] !in {0, 9, 10, 13}))
  }

  // A string literal that its line ends in.
  predicate Unclosed(s: seq<Byte>) {
    s != [] && s[0] in {34, 39} && Enclosed(s[1..], s[0])
  }

  // These bytes are a way to write the token.
  predicate Spelled(t: G.Lex, s: seq<Byte>, numerals: Numerals) {
    match t
    case Eof => false
    case Bad => Stray(s) || Unclosed(s)
    case Id(x) => s == x && Word(s) && !IsReserved(s)
    case StrLit(v) =>
      && |s| >= 2 && s[0] in {34, 39} && s[|s| - 1] == s[0] && Enclosed(s[1..|s| - 1], s[0])
      && v == Literals.Unescape(s[1..|s| - 1])
    case IntLit(n) => Numeral(s) && 46 !in s && n == numerals.integer(s)
    case FloatLit(d) => Numeral(s) && 46 in s && d == numerals.double(s)
    case OParen => s == [40]
    case CParen => s == [41]
    case OBrace => s == [123]
    case CBrace => s == [125]
    case OBracket => s == [91]
    case CBracket => s == [93]
    case Arrow => s == [61, 62]
    case Bang => s == [33]
    case Dot => s == [46]
    case Comma => s == [44]
    case Colon => s == [58]
    case AssignTok(None) => s == [61]
    case AssignTok(Some(op)) =>
      (match op
       case Add => s == [43, 61]
       case Sub => s == [45, 61]
       case Mul => s == [42, 61]
       case Div => s == [47, 61]
       case Mod => s == [37, 61]
       case Pow => s == [42, 42, 61]
       case _ => false)
    case OpTok(op) =>
      (match op
       case Add => s == [43]
       case Sub => s == [45]
       case Mul => s == [42]
       case Div => s == [47]
       case Mod => s == [37]
       case Pow => s == [42, 42]
       case Eql => s == [61, 61]
       case Neq => s == [33, 61]
       case Lt => s == [60]
       case Gt => s == [62]
       case Lte => s == [60, 61]
       case Gte => s == [62, 61])
    case IfTok => s == [105, 102]
    case ElseTok => s == [101, 108, 115, 101]
    case WhileTok => s == [119, 104, 105, 108, 101]
    case BreakTok => s == [98, 114, 101, 97, 107]
    case ContinueTok => s == [99, 111, 110, 116, 105, 110, 117, 101]
    case FnTok => s == [102, 110]
    case ReturnTok => s == [114, 101, 116, 117, 114, 110]
  }

  // The byte c, or 0 at the end of the text, may follow this token without becoming part of it.
  predicate Apart(t: G.Lex, s: seq<Byte>, c: Byte) {
    match t
    case Id(_) => !IsWordByte(c)
    case IfTok => !IsWordByte(c)
    case ElseTok => !IsWordByte(c)
    case WhileTok => !IsWordByte(c)
    case BreakTok => !IsWordByte(c)
    case ContinueTok => !IsWordByte(c)
    case FnTok => !IsWordByte(c)
    case ReturnTok => !IsWordByte(c)
    case IntLit(_) => !IsNumeralByte(c)
    case FloatLit(_) => !IsNumeralByte(c)
    case Bad => s != [] && s[0] in {34, 39} ==> c in {0, 10}
    case Bang => c != 61
    case AssignTok(None) => c !in {61, 62}
    case OpTok(Mul) => c !in {42, 61}
    case OpTok(op) => op in {Add, Sub, Div, Mod, Pow, Lt, Gt} ==> c != 61
    case _ => true
  }

  // ----- texts -----

  // A comment from i to the end of its line at n.
  predicate Comment(b: seq<Byte>, i: nat, n: nat) {
    i < n < |b| && b[i] == 35 && b[n] == 10 && 10 !in b[i..n]
  }

  // Nothing but blanks and comments from i to j.
  ghost predicate Gap(b: seq<Byte>, i: nat, j: nat)
    requires i <= j <= |b|
    decreases j - i
  {
    || i == j
    || (IsBlank(b[i]) && Gap(b, i + 1, j))
    || exists n | i < n < j :: Comment(b, i, n) && Gap(b, n + 1, j)
  }

  function ByteAt(b: seq<Byte>, i: nat): Byte {
    if i < |b| then b[i] else 0
  }

  // The first token stands from j to k.
  ghost predicate StandsAt(b: seq<Byte>, i: nat, j: nat, k: nat, t: G.Lex, numerals: Numerals)
    requires i <= j < k <= |b|
  {
    Gap(b, i, j) && Spelled(t, b[j..k], numerals) && Apart(t, b[j..k], ByteAt(b, k))
  }

  // From i on the text is these tokens.
  ghost predicate WrittenFrom(b: seq<Byte>, i: nat, ts: seq<G.Lex>, numerals: Numerals)
    requires i <= |b|
    decreases |ts|
  {
    if ts == [] then Gap(b, i, |b|)
    else
      exists j, k | i <= j < k <= |b| ::
        StandsAt(b, i, j, k, ts[0], numerals) && WrittenFrom(b, k, ts[1..], numerals)
  }

  ghost predicate Written(text: seq<Byte>, ts: seq<G.Lex>, numerals: Numerals) {
    WrittenFrom(text, 0, ts, numerals)
  }

  // ----- tokens written out with a blank after each -----

  function Spaced(ss: seq<seq<Byte>>): seq<Byte> {
    if ss == [] then [] else ss[0] + [32] + Spaced(ss[1..])
  }

  ghost predicate SpelledAll(ts: seq<G.Lex>, ss: seq<seq<Byte>>, numerals: Numerals) {
    |ts| == |ss| && forall i | 0 <= i < |ts| :: ts[i] != G.Bad && Spelled(ts[i], ss[i], numerals)
  }

  lemma BlankApart(t: G.Lex, s: seq<Byte>)
    requires t != G.Bad
    ensures Apart(t, s, 32)
  {
  }

  lemma SpelledSome(t: G.Lex, s: seq<Byte>, numerals: Numerals)
    requires Spelled(t, s, numerals)
    ensures s != []
  {
  }

  lemma {:induction false} SpacedFrom(b: seq<Byte>, i: nat, from: nat, ts: seq<G.Lex>, ss: seq<seq<Byte>>,
      numerals: Numerals)
    requires from <= i <= |b| && b[i..] == Spaced(ss) && SpelledAll(ts, ss, numerals) && Gap(b, from, i)
    ensures WrittenFrom(b, from, ts, numerals)
    decreases |ts|
  {
    hide Spelled, Apart, Gap;
    if ts != [] {
      var s, rest := ss[0], Spaced(ss[1..]);
      var k := i + |s|;
      var here := b[i..];
      assert here == s + [32] + rest;
      assert here[..|s|] == s && here[|s|] == 32 && here[|s| + 1..] == rest;
      assert b[i..k] == s && b[k] == 32 && b[k + 1..] == rest;
      SpelledSome(ts[0], s, numerals);
      BlankApart(ts[0], s);
      OneBlank(b, k);
      SpacedFrom(b, k + 1, k, ts[1..], ss[1..], numerals);
      assert StandsAt(b, from, i, k, ts[0], numerals);
    }
  }

  lemma OneBlank(b: seq<Byte>, k: nat)
    requires k < |b| && b[k] == 32
    ensures Gap(b, k, k + 1)
  {
  }

  // Spellings with blanks between them are a text of the tokens.
  lemma {:induction false} SpacedWritten(ts: seq<G.Lex>, ss: seq<seq<Byte>>, numerals: Numerals)
    requires SpelledAll(ts, ss, numerals)
    ensures Written(Spaced(ss), ts, numerals)
  {
    assert Spaced(ss)[0..] == Spaced(ss);
    SpacedFrom(Spaced(ss), 0, 0, ts, ss, numerals);
  }
}

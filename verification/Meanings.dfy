/**
 What the tokens of a text mean, and the proof that the lexer and these meanings read exactly the written programs of
 module Spelling.
 */
module Meanings {
  import opened Syntax
  import opened Lexing
  import opened Tokens
  import opened Spelling
  import G = Grammar
  import P = Parser
  import Literals

  function Meaning(text: seq<Byte>, t: Token, numerals: Numerals): G.Lex
    requires t.start <= t.end <= |text|
  {
    var s := text[t.start..t.end];
    match t.tag
    case Eof => G.Eof
    case Invalid => G.Bad
    case Identifier => G.Id(s)
    case StringTok => G.StrLit(Literals.Unescape(s))
    case IntTok => G.IntLit(numerals.integer(s))
    case FloatTok => G.FloatLit(numerals.double(s))
    case OParen => G.OParen
    case CParen => G.CParen
    case OBrace => G.OBrace
    case CBrace => G.CBrace
    case OBracket => G.OBracket
    case CBracket => G.CBracket
    case RArrow => G.Arrow
    case LogicalNot => G.Bang
    case Dot => G.Dot
    case Comma => G.Comma
    case Colon => G.Colon
    case AssignTok => G.AssignTok(None)
    case PlusAssign => G.AssignTok(Some(Add))
    case MinusAssign => G.AssignTok(Some(Sub))
    case MultiplyAssign => G.AssignTok(Some(Mul))
    case DivideAssign => G.AssignTok(Some(Div))
    case ModuloAssign => G.AssignTok(Some(Mod))
    case ExponentAssign => G.AssignTok(Some(Pow))
    case Plus => G.OpTok(Add)
    case Minus => G.OpTok(Sub)
    case Multiply => G.OpTok(Mul)
    case Divide => G.OpTok(Div)
    case Modulo => G.OpTok(Mod)
    case Exponent => G.OpTok(Pow)
    case EqlTok => G.OpTok(Eql)
    case NotEql => G.OpTok(Neq)
    case LessThan => G.OpTok(Lt)
    case GreaterThan => G.OpTok(Gt)
    case LessThanOrEql => G.OpTok(Lte)
    case GreaterThanOrEql => G.OpTok(Gte)
    case KeyIf => G.IfTok
    case KeyElse => G.ElseTok
    case KeyWhile => G.WhileTok
    case KeyBreak => G.BreakTok
    case KeyContinue => G.ContinueTok
    case KeyFn => G.FnTok
    case KeyReturn => G.ReturnTok
  }

  // A token of the text: an identifier or literal lies inside it.
  predicate Inside(text: seq<Byte>, t: Token) {
    t.start <= t.end <= |text|
  }

  // A token at the place where the range of an unfinished string may be empty has no text.
  function Read(text: seq<Byte>, t: Token, numerals: Numerals): P.Tok {
    if Inside(text, t) then P.Tok(Meaning(text, t, numerals), t.start, t.end) else P.Tok(G.Bad, t.start, t.end)
  }

  function ReadAll(text: seq<Byte>, ts: seq<Token>, numerals: Numerals): (r: seq<P.Tok>)
    ensures |r| == |ts|
  {
    seq(|ts|, i requires 0 <= i < |ts| => Read(text, ts[i], numerals))
  }

  lemma ReadWell(text: seq<Byte>, ts: seq<Token>, numerals: Numerals)
    ensures forall t | t in ReadAll(text, ts, numerals) :: P.WellLexed(text, t)
  {
  }

  // ----- blanks and comments -----

  lemma {:induction false} CommentSkipped(b: seq<Byte>, i: nat, n: nat)
    requires i <= n < |b| && b[n] == 10 && 10 !in b[i..n]
    ensures SkipComment(b, i) == Skip(b, n + 1)
    decreases n - i
  {
    if i < n {
      assert b[i..n][0] == b[i] && b[i + 1..n] == b[i..n][1..];
      CommentSkipped(b, i + 1, n);
    }
  }

  lemma {:induction false} GapSkipped(b: seq<Byte>, i: nat, j: nat)
    requires i <= j <= |b| && Gap(b, i, j)
    ensures Skip(b, i) == Skip(b, j)
    decreases j - i
  {
    if i < j {
      if IsBlank(b[i]) && Gap(b, i + 1, j) {
        GapSkipped(b, i + 1, j);
      } else {
        var n :| i < n < j && Comment(b, i, n) && Gap(b, n + 1, j);
        assert b[i + 1..n] == b[i..n][1..];
        CommentSkipped(b, i + 1, n);
        GapSkipped(b, n + 1, j);
      }
    }
  }

  lemma {:induction false} CommentRead(b: seq<Byte>, i: nat, j: nat) returns (n: nat)
    requires i <= |b| && SkipComment(b, i) == Some(j)
    ensures i <= n < |b| && b[n] == 10 && 10 !in b[i..n] && Skip(b, n + 1) == Some(j) && n < j
    decreases |b| - i
  {
    if b[i] == NEWLINE {
      n := i;
    } else {
      n := CommentRead(b, i + 1, j);
      assert b[i..n] == [b[i]] + b[i + 1..n];
    }
  }

  lemma {:induction false} SkippedGap(b: seq<Byte>, i: nat, j: nat)
    requires i <= |b| && Skip(b, i) == Some(j)
    ensures i <= j <= |b| && Gap(b, i, j)
    decreases |b| - i
  {
    if i < |b| && IsSpace(b[i]) {
      SkippedGap(b, i + 1, j);
    } else if i < |b| && b[i] == HASH {
      var n := CommentRead(b, i + 1, j);
      SkippedGap(b, n + 1, j);
      assert b[i..n] == [b[i]] + b[i + 1..n];
      assert Comment(b, i, n);
    }
  }

  // ----- words and numerals -----

  // A longest run of bytes.
  lemma RunIs(b: seq<Byte>, j: nat, k: nat, p: Byte -> bool)
    requires j <= k <= |b|
    ensures Run(b, j, k, p) <==> (forall c | c in b[j..k] :: p(c)) && !p(ByteAt(b, k))
  {
    if forall c | c in b[j..k] :: p(c) {
      forall i | j <= i < k ensures p(b[i]) {
        assert b[i] == b[j..k][i - j];
      }
    }
  }

  // What Keyword says of a word.
  lemma KeywordIs(s: seq<Byte>)
    ensures IsReserved(s) <==> Keyword(s) != Identifier
    ensures Keyword(s) in {KeyIf, KeyElse, KeyWhile, KeyBreak, KeyContinue, KeyFn, KeyReturn, Identifier}
    ensures Keyword(s) == KeyIf <==> s == [105, 102]
    ensures Keyword(s) == KeyElse <==> s == [101, 108, 115, 101]
    ensures Keyword(s) == KeyWhile <==> s == [119, 104, 105, 108, 101]
    ensures Keyword(s) == KeyBreak <==> s == [98, 114, 101, 97, 107]
    ensures Keyword(s) == KeyContinue <==> s == [99, 111, 110, 116, 105, 110, 117, 101]
    ensures Keyword(s) == KeyFn <==> s == [102, 110]
    ensures Keyword(s) == KeyReturn <==> s == [114, 101, 116, 117, 114, 110]
  {
  }

  predicate IsWord(l: G.Lex) {
    l.Id? || l in {G.IfTok, G.ElseTok, G.WhileTok, G.BreakTok, G.ContinueTok, G.FnTok, G.ReturnTok}
  }

  lemma ReservedWord(s: seq<Byte>)
    requires IsReserved(s)
    ensures Word(s)
  {
  }

  // The meaning of a word with this tag.
  function WordLex(t: Tag, s: seq<Byte>): G.Lex {
    match t
    case KeyIf => G.IfTok
    case KeyElse => G.ElseTok
    case KeyWhile => G.WhileTok
    case KeyBreak => G.BreakTok
    case KeyContinue => G.ContinueTok
    case KeyFn => G.FnTok
    case KeyReturn => G.ReturnTok
    case _ => G.Id(s)
  }

  lemma WordMeaning(b: seq<Byte>, j: nat, k: nat, numerals: Numerals)
    requires j <= k <= |b|
    ensures var s := b[j..k]; Meaning(b, Token(Keyword(s), j, k), numerals) == WordLex(Keyword(s), s)
  {
    hide Keyword;
    KeywordIs(b[j..k]);
  }

  lemma SpelledReserved(l: G.Lex, s: seq<Byte>, numerals: Numerals)
    requires IsWord(l) && IsReserved(s)
    ensures Spelled(l, s, numerals) <==> WordLex(Keyword(s), s) == l
  {
  }

  lemma SpelledWord(l: G.Lex, s: seq<Byte>, numerals: Numerals)
    requires IsWord(l)
    ensures Spelled(l, s, numerals) <==> Word(s) && WordLex(Keyword(s), s) == l
  {
    hide Word;
    if IsReserved(s) {
      SpelledReserved(l, s, numerals);
      ReservedWord(s);
    } else {
      hide Keyword;
      KeywordIs(s);
    }
  }

  lemma ApartWord(l: G.Lex, s: seq<Byte>, c: Byte)
    requires IsWord(l)
    ensures Apart(l, s, c) <==> !IsContinuation(c)
  {
  }

  lemma {:induction false} WordAt(b: seq<Byte>, j: nat, k: nat, l: G.Lex, numerals: Numerals)
    requires j < k <= |b| && IsWord(l)
    ensures var s, t := b[j..k], Token(Keyword(b[j..k]), j, k);
            Spelled(l, s, numerals) && Apart(l, s, ByteAt(b, k)) <==>
            IsBeginning(b[j]) && Run(b, j, k, IsContinuation) && Meaning(b, t, numerals) == l
  {
    hide Keyword, Run, Meaning, Spelled, Apart, WordLex;
    var s := b[j..k];
    RunIs(b, j, k, IsContinuation);
    WordMeaning(b, j, k, numerals);
    SpelledWord(l, s, numerals);
    ApartWord(l, s, ByteAt(b, k));
    assert s[0] == b[j];
    assert (forall c | c in s :: IsContinuation(c)) <==> forall c | c in s :: IsWordByte(c);
  }

  lemma {:induction false} NumeralAt(b: seq<Byte>, j: nat, k: nat, l: G.Lex, numerals: Numerals)
    requires j < k <= |b| && (l.IntLit? || l.FloatLit?)
    ensures var s, t := b[j..k], Token(if POINT in b[j..k] then FloatTok else IntTok, j, k);
            Spelled(l, s, numerals) && Apart(l, s, ByteAt(b, k)) <==>
            IsDigit(b[j]) && Run(b, j, k, IsNumeral) && Meaning(b, t, numerals) == l
  {
    hide Run;
    var s := b[j..k];
    RunIs(b, j, k, IsNumeral);
    assert s[0] == b[j];
    assert (forall c | c in s :: IsNumeral(c)) <==> forall c | c in s :: IsNumeralByte(c);
  }

  // ----- strings -----

  lemma {:induction false} StringClosed(b: seq<Byte>, i: nat, quote: Byte, e: nat)
    requires i <= |b| && IsQuote(quote) && 0 !in b
    ensures StringEnd(b, i, quote) == Closed(e) <==> i <= e < |b| && b[e] == quote && Enclosed(b[i..e], quote)
    decreases |b| - i
  {
    if i < |b| {
      assert b[i] in b;
      if i < e < |b| {
        assert b[i..e][0] == b[i] && b[i..e][1..] == b[i + 1..e];
      }
      if b[i] == BACKSLASH {
        if i + 1 < |b| {
          StringClosed(b, i + 2, quote, e);
          if i + 2 <= e < |b| {
            assert b[i..e][2..] == b[i + 2..e];
          }
        }
      } else if b[i] != NEWLINE && b[i] != quote {
        StringClosed(b, i + 1, quote, e);
      }
    }
  }

  lemma {:induction false} StringOpen(b: seq<Byte>, i: nat, quote: Byte, e: nat)
    requires i <= |b| && IsQuote(quote) && 0 !in b
    ensures StringEnd(b, i, quote) == Open(e) <==>
            i <= e <= |b| && ByteAt(b, e) in {0, 10} && Enclosed(b[i..e], quote)
    decreases |b| - i
  {
    if i < |b| {
      assert b[i] in b;
      if i < e <= |b| {
        assert b[i..e][0] == b[i] && b[i..e][1..] == b[i + 1..e];
      }
      if b[i] == BACKSLASH {
        if i + 1 < |b| {
          StringOpen(b, i + 2, quote, e);
          if i + 2 <= e <= |b| {
            assert b[i..e][2..] == b[i + 2..e];
          }
        }
      } else if b[i] != NEWLINE && b[i] != quote {
        StringOpen(b, i + 1, quote, e);
      }
    }
  }

  lemma {:induction false} StringAt(b: seq<Byte>, j: nat, k: nat, l: G.Lex, numerals: Numerals)
    requires j < k <= |b| && l.StrLit? && 0 !in b
    ensures Spelled(l, b[j..k], numerals) <==>
            && IsQuote(b[j]) && StringEnd(b, j + 1, b[j]) == Closed(k - 1)
            && Meaning(b, Token(StringTok, j + 1, k - 1), numerals) == l
  {
    hide Enclosed, StringEnd, Literals.Unescape;
    var s := b[j..k];
    assert s[0] == b[j] && s[|s| - 1] == b[k - 1];
    if k - j >= 2 {
      Literals.Within(b, j, k, 1, k - j - 1);
    }
    if IsQuote(b[j]) {
      StringClosed(b, j + 1, b[j], k - 1);
    }
  }

  lemma {:induction false} UnclosedAt(b: seq<Byte>, j: nat, k: nat)
    requires j < k <= |b| && 0 !in b
    ensures Unclosed(b[j..k]) && ByteAt(b, k) in {0, 10} <==> IsQuote(b[j]) && StringEnd(b, j + 1, b[j]) == Open(k)
  {
    hide Enclosed, StringEnd;
    assert b[j..k][0] == b[j] && b[j..k][1..] == b[j + 1..k];
    if IsQuote(b[j]) {
      StringOpen(b, j + 1, b[j], k);
    }
  }

  // ----- operators and brackets -----

  predicate IsMark(l: G.Lex) {
    || l.AssignTok? || l.OpTok? || l in {G.OParen, G.CParen, G.OBrace, G.CBrace, G.OBracket, G.CBracket}
    || l in {G.Arrow, G.Bang, G.Dot, G.Comma, G.Colon}
  }

  // The first byte of a token that is no word, numeral or string.
  predicate IsOther(c: Byte) {
    c != 0 && !IsBeginning(c) && !IsDigit(c) && !IsQuote(c) && !IsSpace(c) && c != HASH
  }

  lemma OperatorHere(b: seq<Byte>, i: nat, t: Tag)
    ensures t != Invalid && Longest(b, i, t) <==> t != Invalid && t == Operator(At(b, i), At(b, i + 1), At(b, i + 2))
    ensures NoOperator(b, i) <==> Operator(At(b, i), At(b, i + 1), At(b, i + 2)) == Invalid
  {
    hide Operator, OpText, Matches;
    var u := Operator(At(b, i), At(b, i + 1), At(b, i + 2));
    OperatorLongest(b, i, u);
    if t != Invalid && Longest(b, i, t) {
      assert u != Invalid;
      SameText(b, i, t, u);
    }
  }

  // The tag of a mark; Invalid where there is none.
  function MarkTag(l: G.Lex): Tag
    requires IsMark(l)
  {
    match l
    case OParen => Tag.OParen
    case CParen => Tag.CParen
    case OBrace => Tag.OBrace
    case CBrace => Tag.CBrace
    case OBracket => Tag.OBracket
    case CBracket => Tag.CBracket
    case Arrow => RArrow
    case Bang => Tag.LogicalNot
    case Dot => Tag.Dot
    case Comma => Tag.Comma
    case Colon => Tag.Colon
    case AssignTok(None) => Tag.AssignTok
    case AssignTok(Some(op)) =>
      (match op
       case Add => PlusAssign case Sub => MinusAssign case Mul => MultiplyAssign case Div => DivideAssign
       case Mod => ModuloAssign case Pow => ExponentAssign case _ => Invalid)
    case OpTok(op) =>
      (match op
       case Add => Plus case Sub => Minus case Mul => Multiply case Div => Divide case Mod => Modulo
       case Pow => Exponent case Eql => EqlTok case Neq => NotEql case Lt => LessThan case Gt => GreaterThan
       case Lte => LessThanOrEql case Gte => GreaterThanOrEql)
  }

  lemma MarkSpelledAssign(op: Option<BinaryOp>, s: seq<Byte>, numerals: Numerals)
    ensures var l := G.AssignTok(op);
            Spelled(l, s, numerals) <==> MarkTag(l) != Invalid && s == OpText(MarkTag(l))
  {
  }

  lemma MarkSpelledMath(op: BinaryOp, s: seq<Byte>, numerals: Numerals)
    requires op in {Add, Sub, Mul, Div, Mod, Pow}
    ensures var l := G.OpTok(op); Spelled(l, s, numerals) <==> s == OpText(MarkTag(l)) && MarkTag(l) != Invalid
  {
  }

  lemma MarkSpelledCompare(op: BinaryOp, s: seq<Byte>, numerals: Numerals)
    requires op !in {Add, Sub, Mul, Div, Mod, Pow}
    ensures var l := G.OpTok(op); Spelled(l, s, numerals) <==> s == OpText(MarkTag(l)) && MarkTag(l) != Invalid
  {
  }

  lemma MarkSpelledOther(l: G.Lex, s: seq<Byte>, numerals: Numerals)
    requires IsMark(l) && !l.AssignTok? && !l.OpTok?
    ensures Spelled(l, s, numerals) <==> MarkTag(l) != Invalid && s == OpText(MarkTag(l))
  {
  }

  lemma MarkSpelled(l: G.Lex, s: seq<Byte>, numerals: Numerals)
    requires IsMark(l)
    ensures Spelled(l, s, numerals) <==> MarkTag(l) != Invalid && s == OpText(MarkTag(l))
  {
    hide *;
    if l.AssignTok? {
      MarkSpelledAssign(l.assigns, s, numerals);
    } else if l.OpTok? {
      if l.op in {Add, Sub, Mul, Div, Mod, Pow} {
        MarkSpelledMath(l.op, s, numerals);
      } else {
        MarkSpelledCompare(l.op, s, numerals);
      }
    } else {
      MarkSpelledOther(l, s, numerals);
    }
  }

  lemma MarkMeaningAssign(b: seq<Byte>, t: Token, l: G.Lex, numerals: Numerals)
    requires IsMark(l) && t.start <= t.end <= |b| && l.AssignTok?
    ensures Meaning(b, t, numerals) == l <==> MarkTag(l) != Invalid && t.tag == MarkTag(l)
  {
  }

  lemma MarkMeaningOp(b: seq<Byte>, t: Token, l: G.Lex, numerals: Numerals)
    requires IsMark(l) && t.start <= t.end <= |b| && l.OpTok?
    ensures Meaning(b, t, numerals) == l <==> MarkTag(l) != Invalid && t.tag == MarkTag(l)
  {
  }

  lemma MarkMeaningOther(b: seq<Byte>, t: Token, l: G.Lex, numerals: Numerals)
    requires IsMark(l) && t.start <= t.end <= |b| && !l.AssignTok? && !l.OpTok?
    ensures Meaning(b, t, numerals) == l <==> MarkTag(l) != Invalid && t.tag == MarkTag(l)
  {
  }

  lemma MarkMeaning(b: seq<Byte>, t: Token, l: G.Lex, numerals: Numerals)
    requires IsMark(l) && t.start <= t.end <= |b|
    ensures Meaning(b, t, numerals) == l <==> MarkTag(l) != Invalid && t.tag == MarkTag(l)
  {
    hide *;
    if l.AssignTok? {
      MarkMeaningAssign(b, t, l, numerals);
    } else if l.OpTok? {
      MarkMeaningOp(b, t, l, numerals);
    } else {
      MarkMeaningOther(b, t, l, numerals);
    }
  }

  lemma MarkText(l: G.Lex)
    requires IsMark(l)
    ensures MarkTag(l) != Invalid ==> OpText(MarkTag(l)) != [] && 0 !in OpText(MarkTag(l))
  {
    var s := OpText(MarkTag(l));
    assert 0 in s ==> s == [POINT];
  }

  lemma MarkMatches(b: seq<Byte>, j: nat, t: Tag)
    requires OpText(t) != [] && 0 !in OpText(t)
    ensures Matches(b, j, t) <==> j + |OpText(t)| <= |b| && b[j..j + |OpText(t)|] == OpText(t)
  {
    hide OpText;
    var s := OpText(t);
    assert forall c | c in s :: c != 0;
    assert s[0] in s && (|s| > 1 ==> s[1] in s) && (|s| > 2 ==> s[2] in s);
    if j + |s| <= |b| {
      var here := b[j..j + |s|];
      assert here[0] == b[j] && (|s| > 1 ==> here[1] == b[j + 1]) && (|s| > 2 ==> here[2] == b[j + 2]);
    }
  }

  // The text of t stands at i and the byte after it is none of these.
  predicate MatchesBefore(b: seq<Byte>, i: nat, t: Tag, not: set<Byte>) {
    Matches(b, i, t) && At(b, i + |OpText(t)|) !in not
  }

  lemma BracketLongest(b: seq<Byte>, j: nat, t: Tag)
    requires t in {Tag.OParen, Tag.CParen, Tag.OBrace, Tag.CBrace, Tag.OBracket, Tag.CBracket, Tag.Dot, Tag.Comma,
               Tag.Colon, RArrow, EqlTok, NotEql}
    ensures t == Operator(At(b, j), At(b, j + 1), At(b, j + 2)) <==> MatchesBefore(b, j, t, {})
  {
  }

  lemma SignLongest(b: seq<Byte>, j: nat, t: Tag)
    requires t in {Tag.LogicalNot, Plus, Minus, Divide, Modulo, LessThan, GreaterThan, Exponent}
    ensures t == Operator(At(b, j), At(b, j + 1), At(b, j + 2)) <==> MatchesBefore(b, j, t, {61})
  {
  }

  lemma EqualLongest(b: seq<Byte>, j: nat, t: Tag)
    requires t in {PlusAssign, MinusAssign, MultiplyAssign, DivideAssign, ModuloAssign, ExponentAssign, LessThanOrEql,
               GreaterThanOrEql}
    ensures t == Operator(At(b, j), At(b, j + 1), At(b, j + 2)) <==> MatchesBefore(b, j, t, {})
  {
  }

  lemma OthersLongest(b: seq<Byte>, j: nat)
    ensures Tag.AssignTok == Operator(At(b, j), At(b, j + 1), At(b, j + 2)) <==>
            MatchesBefore(b, j, Tag.AssignTok, {61, 62})
    ensures Multiply == Operator(At(b, j), At(b, j + 1), At(b, j + 2)) <==> MatchesBefore(b, j, Multiply, {42, 61})
  {
  }

  // The bytes that may not follow a mark.
  function Blocked(t: Tag): set<Byte> {
    if t == Tag.AssignTok then {61, 62}
    else if t == Multiply then {42, 61}
    else if t in {Tag.LogicalNot, Plus, Minus, Divide, Modulo, LessThan, GreaterThan, Exponent} then {61}
    else {}
  }

  lemma MarkApart(l: G.Lex, s: seq<Byte>, c: Byte)
    requires IsMark(l) && MarkTag(l) != Invalid
    ensures Apart(l, s, c) <==> c !in Blocked(MarkTag(l))
  {
  }

  lemma MarkTags(l: G.Lex)
    requires IsMark(l) && MarkTag(l) != Invalid
    ensures MarkTag(l) in {Tag.OParen, Tag.CParen, Tag.OBrace, Tag.CBrace, Tag.OBracket, Tag.CBracket, Tag.Dot,
              Tag.Comma, Tag.Colon, RArrow, EqlTok, NotEql, Tag.LogicalNot, Plus, Minus, Divide, Modulo, LessThan,
              GreaterThan, Exponent, PlusAssign, MinusAssign, MultiplyAssign, DivideAssign, ModuloAssign,
              ExponentAssign, LessThanOrEql, GreaterThanOrEql, Tag.AssignTok, Multiply}
  {
  }

  // The longest operator is the one that the next byte does not make longer.
  lemma MarkLongest(b: seq<Byte>, j: nat, l: G.Lex, s: seq<Byte>)
    requires IsMark(l) && MarkTag(l) != Invalid
    ensures MarkTag(l) == Operator(At(b, j), At(b, j + 1), At(b, j + 2)) <==>
            Matches(b, j, MarkTag(l)) && Apart(l, s, At(b, j + |OpText(MarkTag(l))|))
  {
    hide Operator, Matches, OpText, Apart, MarkTag, IsMark;
    var t := MarkTag(l);
    MarkApart(l, s, At(b, j + |OpText(t)|));
    MarkTags(l);
    if t == Tag.AssignTok || t == Multiply {
      OthersLongest(b, j);
    } else if t in {Tag.LogicalNot, Plus, Minus, Divide, Modulo, LessThan, GreaterThan, Exponent} {
      SignLongest(b, j, t);
    } else if t in {PlusAssign, MinusAssign, MultiplyAssign, DivideAssign, ModuloAssign, ExponentAssign,
                    LessThanOrEql, GreaterThanOrEql} {
      EqualLongest(b, j, t);
    } else {
      BracketLongest(b, j, t);
    }
  }

  lemma {:induction false} MarkAt(b: seq<Byte>, j: nat, k: nat, l: G.Lex, numerals: Numerals)
    requires j < k <= |b| && IsMark(l)
    ensures Spelled(l, b[j..k], numerals) && Apart(l, b[j..k], ByteAt(b, k)) <==>
            && MarkTag(l) != Invalid && k == j + |OpText(MarkTag(l))| && Longest(b, j, MarkTag(l))
            && Meaning(b, Token(MarkTag(l), j, k), numerals) == l
  {
    hide Spelled, Apart, Longest, OpText, Operator, MarkTag, Matches, Meaning;
    var s := b[j..k];
    MarkSpelled(l, s, numerals);
    MarkText(l);
    MarkMeaning(b, Token(MarkTag(l), j, k), l, numerals);
    if MarkTag(l) != Invalid {
      MarkLongest(b, j, l, s);
      MarkMatches(b, j, MarkTag(l));
      OperatorHere(b, j, MarkTag(l));
    }
  }

  lemma MarkFor(b: seq<Byte>, t: Token, numerals: Numerals)
    requires t.start <= t.end <= |b| && OpText(t.tag) != []
    ensures IsMark(Meaning(b, t, numerals))
  {
  }

  lemma StrayIs(c: Byte, second: Byte, third: Byte)
    ensures IsOther(c) && Operator(c, second, third) == Invalid <==> Stray([c])
  {
  }

  // ----- one token -----

  lemma {:induction false} StrayAt(b: seq<Byte>, j: nat)
    requires j < |b|
    ensures Stray(b[j..j + 1]) <==> IsOther(b[j]) && NoOperator(b, j)
  {
    hide Stray, NoOperator, Operator, IsOther;
    assert b[j..j + 1] == [b[j]];
    OperatorHere(b, j, Invalid);
    StrayIs(b[j], At(b, j + 1), At(b, j + 2));
  }

  // What the lexer makes of a token that stands in the text is one of its meanings.
  lemma {:induction false} TokenMeans(b: seq<Byte>, j: nat, k: nat, t: Token, numerals: Numerals)
    requires 0 !in b && j < k <= |b| && TokenAt(b, j, t, k) && !IsSpace(b[j]) && b[j] != HASH
    ensures var l := Read(b, t, numerals).lex;
            Spelled(l, b[j..k], numerals) && Apart(l, b[j..k], ByteAt(b, k))
  {
    hide Spelled, Keyword, Run, Longest, NoOperator, StringEnd, OpText, Stray, Enclosed, Literals.Unescape;
    assert b[j] in b;
    var l, s := Read(b, t, numerals).lex, b[j..k];
    assert s[0] == b[j];
    if IsBeginning(b[j]) {
      WordMeaning(b, j, k, numerals);
      WordAt(b, j, k, l, numerals);
    } else if IsDigit(b[j]) {
      NumeralAt(b, j, k, l, numerals);
    } else if IsQuote(b[j]) {
      if t.tag == StringTok {
        StringAt(b, j, k, l, numerals);
      } else {
        UnclosedAt(b, j, k);
        BadSpelled(s, numerals);
      }
    } else if t.tag == Invalid {
      StrayAt(b, j);
      BadSpelled(s, numerals);
    } else {
      OperatorHere(b, j, t.tag);
      OperatorLongest(b, j, t.tag);
      MarkFor(b, t, numerals);
      MarkMeaning(b, t, l, numerals);
      MarkAt(b, j, k, l, numerals);
    }
  }

  lemma BadSpelled(s: seq<Byte>, numerals: Numerals)
    ensures Spelled(G.Bad, s, numerals) <==> Stray(s) || Unclosed(s)
    ensures Stray(s) ==> s[0] !in {34, 39}
  {
  }

  lemma SpelledKinds(l: G.Lex, s: seq<Byte>, numerals: Numerals)
    requires Spelled(l, s, numerals)
    ensures l.Bad? || IsWord(l) || l.IntLit? || l.FloatLit? || l.StrLit? || IsMark(l)
  {
  }

  // What is written stands there as a token with this meaning.
  lemma {:induction false} TokenFor(b: seq<Byte>, j: nat, k: nat, l: G.Lex, numerals: Numerals) returns (t: Token)
    requires 0 !in b && j < k <= |b| && Spelled(l, b[j..k], numerals) && Apart(l, b[j..k], ByteAt(b, k))
    ensures TokenAt(b, j, t, k) && t.tag != Eof && Read(b, t, numerals).lex == l && !IsSpace(b[j]) && b[j] != HASH
  {
    hide Keyword, Run, Longest, NoOperator, StringEnd, OpText, Stray, Enclosed, Literals.Unescape, Spelled, Apart;
    assert b[j] in b;
    var s := b[j..k];
    assert s[0] == b[j];
    SpelledKinds(l, s, numerals);
    if l.Bad? {
      t := BadFor(b, j, k, numerals);
    } else if IsWord(l) {
      WordAt(b, j, k, l, numerals);
      KeywordIs(s);
      t := Token(Keyword(s), j, k);
    } else if l.IntLit? || l.FloatLit? {
      NumeralAt(b, j, k, l, numerals);
      t := Token(if POINT in s then FloatTok else IntTok, j, k);
    } else if l.StrLit? {
      StringAt(b, j, k, l, numerals);
      t := Token(StringTok, j + 1, k - 1);
    } else {
      t := MarkFound(b, j, k, l, numerals);
    }
  }

  lemma {:induction false} BadFor(b: seq<Byte>, j: nat, k: nat, numerals: Numerals) returns (t: Token)
    requires 0 !in b && j < k <= |b| && Spelled(G.Bad, b[j..k], numerals) && Apart(G.Bad, b[j..k], ByteAt(b, k))
    ensures TokenAt(b, j, t, k) && t.tag != Eof && Read(b, t, numerals).lex == G.Bad && !IsSpace(b[j]) && b[j] != HASH
  {
    hide Keyword, Run, Longest, NoOperator, StringEnd, OpText, Stray, Enclosed, Spelled;
    assert b[j] in b;
    var s := b[j..k];
    assert s[0] == b[j];
    BadSpelled(s, numerals);
    if Stray(s) {
      StrayLength(s);
      StrayAt(b, j);
      t := Token(Invalid, j, k);
    } else {
      UnclosedAt(b, j, k);
      t := Token(Invalid, j + 1, k - 1);
    }
  }

  lemma StrayLength(s: seq<Byte>)
    requires Stray(s)
    ensures |s| == 1
  {
  }

  lemma {:induction false} MarkFound(b: seq<Byte>, j: nat, k: nat, l: G.Lex, numerals: Numerals) returns (t: Token)
    requires j < k <= |b| && IsMark(l) && Spelled(l, b[j..k], numerals) && Apart(l, b[j..k], ByteAt(b, k))
    ensures TokenAt(b, j, t, k) && t.tag != Eof && Read(b, t, numerals).lex == l && !IsSpace(b[j]) && b[j] != HASH
  {
    hide Keyword, Run, Longest, NoOperator, StringEnd, OpText, Meaning, MarkTag, Spelled, Apart;
    MarkAt(b, j, k, l, numerals);
    MarkSpelled(l, b[j..k], numerals);
    MarkText(l);
    OperatorStarts(MarkTag(l));
    assert b[j..k][0] == b[j];
    NoText(b, j);
    t := Token(MarkTag(l), j, k);
    MarkNotEof(l);
  }

  lemma MarkNotEof(l: G.Lex)
    requires IsMark(l)
    ensures MarkTag(l) != Eof
  {
  }

  /** A string as ast_display prints it, between quotes, is written as that string. */
  lemma {:induction false} LiteralSpelled(s: seq<Byte>, numerals: Numerals)
    requires forall c | c in s :: Literals.Faithful(c)
    ensures Spelled(G.StrLit(Some(s)), [34] + Literals.Escape(s) + [34], numerals)
  {
    hide TokenAt, Literals.Escape, Literals.Unescape, Spelled, Apart;
    var e := Literals.Escape(s);
    var b := [34] + e + [34];
    Literals.LiteralRoundTrip(b, 0, s, |b|);
    Literals.PrintsPrintable(s);
    TokenMeans(b, 0, |b|, Token(StringTok, 1, |b| - 1), numerals);
    assert b[0..|b|] == b;
  }

  // ----- whole texts -----

  // A token that does not end the text ends inside it.
  lemma {:induction false} NextInside(b: seq<Byte>, i: nat, t: Token, next: nat)
    requires i <= |b| && TokenAt(b, i, t, next) && t.tag != Eof && 0 !in b
    ensures i < next <= |b|
  {
    hide Keyword, StringEnd, Longest;
    if IsQuote(At(b, i)) && i < |b| {
      ClosedInside(b, i + 1, At(b, i));
    }
    if t.tag != Invalid && Longest(b, i, t.tag) {
      OperatorInside(b, i, t.tag);
    }
  }

  lemma {:induction false} ClosedInside(b: seq<Byte>, i: nat, quote: Byte)
    requires i <= |b| && IsQuote(quote)
    ensures StringEnd(b, i, quote).Closed? ==> StringEnd(b, i, quote).at < |b|
    decreases |b| - i
  {
    if At(b, i) == BACKSLASH {
      if i + 1 < |b| {
        ClosedInside(b, i + 2, quote);
      }
    } else if At(b, i) != 0 && At(b, i) != NEWLINE && At(b, i) != quote {
      ClosedInside(b, i + 1, quote);
    }
  }

  lemma OperatorInside(b: seq<Byte>, i: nat, t: Tag)
    requires Longest(b, i, t) && 0 !in b
    ensures 0 < |OpText(t)| && i + |OpText(t)| <= |b|
  {
    var s := OpText(t);
    assert Matches(b, i, t);
    assert forall c | c in s :: c != 0;
    assert s[0] in s && (|s| > 1 ==> s[1] in s) && (|s| > 2 ==> s[2] in s);
  }

  lemma EndToken(b: seq<Byte>, i: nat, t: Token, next: nat)
    requires i <= |b| && TokenAt(b, i, t, next) && t.tag == Eof && 0 !in b
    ensures t == Token(Eof, |b|, |b|)
  {
    hide StringEnd, Matches;
    assert OpText(Eof) == [];
    assert !Matches(b, i, Eof) by { NoText(b, i); }
  }

  lemma NoText(b: seq<Byte>, i: nat)
    ensures !Matches(b, i, Eof)
  {
  }

  // What these tokens of the text mean.
  function MeaningsOf(text: seq<Byte>, ts: seq<Token>, numerals: Numerals): (ls: seq<G.Lex>)
    ensures |ls| == |ts|
  {
    seq(|ts|, i requires 0 <= i < |ts| => Read(text, ts[i], numerals).lex)
  }

  lemma {:induction false} MeaningsAre(text: seq<Byte>, ts: seq<Token>, numerals: Numerals)
    ensures MeaningsOf(text, ts, numerals) == P.LexesOf(ReadAll(text, ts, numerals))
  {
    hide Read;
  }

  function End(b: seq<Byte>): Token {
    Token(Eof, |b|, |b|)
  }

  lemma {:induction false} ReadIsWritten(b: seq<Byte>, i: nat, ts: seq<Token>, numerals: Numerals)
    requires 0 !in b && i <= |b| && Reads(b, i, ts + [End(b)]) && forall t | t in ts :: t.tag != Eof
    ensures WrittenFrom(b, i, MeaningsOf(b, ts, numerals), numerals)
    decreases |ts|
  {
    hide TokenAt, Skip, Gap, Spelled, Apart, Read;
    var us, j := ts + [End(b)], Skip(b, i).value;
    var k :| TokenAt(b, j, us[0], k) && ReadsOn(b, k, us);
    SkippedGap(b, i, j);
    SkipStops(b, i);
    if ts == [] {
      AtEnd(b, j, k);
    } else {
      assert us[0] == ts[0] && us[1..] == ts[1..] + [End(b)] && ts[0] in ts;
      NextInside(b, j, ts[0], k);
      TokenMeans(b, j, k, ts[0], numerals);
      ReadIsWritten(b, k, ts[1..], numerals);
      var ls := MeaningsOf(b, ts, numerals);
      assert ls[1..] == MeaningsOf(b, ts[1..], numerals) && ls[0] == Read(b, ts[0], numerals).lex;
      assert StandsAt(b, i, j, k, ls[0], numerals);
    }
  }

  lemma SkipStops(b: seq<Byte>, i: nat)
    requires i <= |b| && Skip(b, i).Some?
    ensures var j := Skip(b, i).value; i <= j <= |b| && (j < |b| ==> !IsSpace(b[j]) && b[j] != HASH)
  {
  }

  lemma AtEnd(b: seq<Byte>, j: nat, k: nat)
    requires 0 !in b && j <= |b| && TokenAt(b, j, End(b), k)
    ensures j == |b|
  {
    EndToken(b, j, End(b), k);
  }

  lemma {:induction false} WrittenIsRead(b: seq<Byte>, i: nat, ls: seq<G.Lex>, numerals: Numerals)
    returns (ts: seq<Token>)
    requires 0 !in b && i <= |b| && WrittenFrom(b, i, ls, numerals)
    ensures Reads(b, i, ts + [End(b)]) && MeaningsOf(b, ts, numerals) == ls && forall t | t in ts :: t.tag != Eof
    decreases |ls|
  {
    hide TokenAt, Skip, Gap, Spelled, Apart, Read;
    if ls == [] {
      ts := [];
      GapSkipped(b, i, |b|);
      EndHere(b, |b|);
      ReadsIs(b, i, |b|, |b| + 1, [End(b)]);
      assert ts + [End(b)] == [End(b)];
    } else {
      var j, k :| i <= j < k <= |b| && StandsAt(b, i, j, k, ls[0], numerals) && WrittenFrom(b, k, ls[1..], numerals);
      var t := TokenFor(b, j, k, ls[0], numerals);
      var more := WrittenIsRead(b, k, ls[1..], numerals);
      GapSkipped(b, i, j);
      SkipHere(b, j);
      ts := [t] + more;
      assert (ts + [End(b)])[1..] == more + [End(b)];
      ReadsIs(b, i, j, k, ts + [End(b)]);
      MeaningsMore(b, t, more, numerals);
      assert ls == [ls[0]] + ls[1..];
    }
  }

  lemma MeaningsMore(b: seq<Byte>, t: Token, ts: seq<Token>, numerals: Numerals)
    ensures MeaningsOf(b, [t] + ts, numerals) == [Read(b, t, numerals).lex] + MeaningsOf(b, ts, numerals)
  {
    hide Read;
  }

  // No text is two sequences of tokens.
  lemma {:induction false} WrittenOne(text: seq<Byte>, ls: seq<G.Lex>, ls': seq<G.Lex>, numerals: Numerals)
    requires 0 !in text && Written(text, ls, numerals) && Written(text, ls', numerals)
    ensures ls == ls'
  {
    hide WrittenFrom, Reads, MeaningsOf;
    var ts := WrittenIsRead(text, 0, ls, numerals);
    var ts' := WrittenIsRead(text, 0, ls', numerals);
    ReadsOne(text, 0, ts + [End(text)], ts' + [End(text)]);
    assert ts == (ts + [End(text)])[..|ts|] && ts' == (ts' + [End(text)])[..|ts'|];
  }
}

/**
 The lexer (src/lexer.c) on a text that ends with a NUL. Each token is the longest that can be read at its
 place, and tokens written out with a blank between them are read back one by one.
 */
module Lexing {
  import opened Syntax

  datatype Tag =
    | Eof | Invalid | Identifier | IntTok | FloatTok | StringTok
    | OParen | CParen | OBrace | CBrace | OBracket | CBracket
    | RArrow | AssignTok | EqlTok | LogicalNot | NotEql | Dot | Comma | Colon
    | Plus | PlusAssign | Minus | MinusAssign | Multiply | MultiplyAssign | Divide | DivideAssign
    | Modulo | ModuloAssign | Exponent | ExponentAssign
    | LessThan | LessThanOrEql | GreaterThan | GreaterThanOrEql
    | KeyIf | KeyElse | KeyWhile | KeyBreak | KeyContinue | KeyFn | KeyReturn

  datatype Token = Token(tag: Tag, start: nat, end: nat)

  // ----- characters -----

  const NEWLINE: Byte := 10
  const BLANK: Byte := 32
  const QUOTE: Byte := 34
  const HASH: Byte := 35
  const APOSTROPHE: Byte := 39
  const POINT: Byte := 46
  const BACKSLASH: Byte := 92

  function At(b: seq<Byte>, i: nat): Byte {
    if i < |b| then b[i] else 0
  }

  predicate IsSpace(c: Byte) { c == BLANK || c == 9 || c == NEWLINE || c == 13 }

  predicate IsDigit(c: Byte) { 48 <= c <= 57 }

  predicate IsBeginning(c: Byte) { 97 <= c <= 122 || 65 <= c <= 90 || c == 95 }

  predicate IsContinuation(c: Byte) { IsBeginning(c) || IsDigit(c) }

  predicate IsNumeral(c: Byte) { IsContinuation(c) || c == POINT }

  predicate IsQuote(c: Byte) { c == QUOTE || c == APOSTROPHE }

  // ----- what a token is -----

  // The texts of the operators and brackets.
  function OpText(t: Tag): (s: seq<Byte>)
    ensures |s| <= 3 && forall c | c in s :: s == [POINT] || (c != 0 && !IsSpace(c) && !IsNumeral(c))
  {
    match t
    case OParen => [40]
    case CParen => [41]
    case OBrace => [123]
    case CBrace => [125]
    case OBracket => [91]
    case CBracket => [93]
    case RArrow => [61, 62]
    case AssignTok => [61]
    case EqlTok => [61, 61]
    case LogicalNot => [33]
    case NotEql => [33, 61]
    case Dot => [POINT]
    case Comma => [44]
    case Colon => [58]
    case Plus => [43]
    case PlusAssign => [43, 61]
    case Minus => [45]
    case MinusAssign => [45, 61]
    case Multiply => [42]
    case MultiplyAssign => [42, 61]
    case Divide => [47]
    case DivideAssign => [47, 61]
    case Modulo => [37]
    case ModuloAssign => [37, 61]
    case Exponent => [42, 42]
    case ExponentAssign => [42, 42, 61]
    case LessThan => [60]
    case LessThanOrEql => [60, 61]
    case GreaterThan => [62]
    case GreaterThanOrEql => [62, 61]
    case _ => []
  }

  // The text of t stands at i.
  predicate Matches(b: seq<Byte>, i: nat, t: Tag) {
    var s := OpText(t);
    s != [] && At(b, i) == s[0] && (|s| > 1 ==> At(b, i + 1) == s[1]) && (|s| > 2 ==> At(b, i + 2) == s[2])
  }

  ghost predicate Longest(b: seq<Byte>, i: nat, t: Tag) {
    Matches(b, i, t) && forall u | Matches(b, i, u) :: |OpText(u)| <= |OpText(t)|
  }

  ghost predicate NoOperator(b: seq<Byte>, i: nat) {
    forall u :: !Matches(b, i, u)
  }

  function Keyword(s: seq<Byte>): Tag {
    if s == [105, 102] then KeyIf
    else if s == [101, 108, 115, 101] then KeyElse
    else if s == [119, 104, 105, 108, 101] then KeyWhile
    else if s == [98, 114, 101, 97, 107] then KeyBreak
    else if s == [99, 111, 110, 116, 105, 110, 117, 101] then KeyContinue
    else if s == [102, 110] then KeyFn
    else if s == [114, 101, 116, 117, 114, 110] then KeyReturn
    else Identifier
  }

  // Every byte of b from i to j satisfies p, and the one at j does not.
  ghost predicate Run(b: seq<Byte>, i: nat, j: nat, p: Byte -> bool) {
    i <= j <= |b| && (forall k | i <= k < j :: p(b[k])) && !p(At(b, j))
  }

  datatype Quoted = Closed(at: nat) | Open(at: nat) | Cut

  // From inside a string literal to its closing quote, or to the end of the line.
  function StringEnd(b: seq<Byte>, i: nat, quote: Byte): (r: Quoted)
    requires i <= |b|
    ensures !r.Cut? ==> i <= r.at <= |b|
    decreases |b| - i
  {
    if At(b, i) == BACKSLASH then if i + 1 < |b| then StringEnd(b, i + 2, quote) else Cut
    else if At(b, i) == 0 || At(b, i) == NEWLINE then Open(i)
    else if At(b, i) == quote then Closed(i)
    else StringEnd(b, i + 1, quote)
  }

  // The token t stands at i and reading goes on at next.
  ghost predicate TokenAt(b: seq<Byte>, i: nat, t: Token, next: nat)
    requires i <= |b|
  {
    var c := At(b, i);
    if c == 0 then t == Token(Eof, i, i) && next == i + 1
    else if IsBeginning(c) then
      Run(b, i, next, IsContinuation) && t == Token(Keyword(b[i..next]), i, next)
    else if IsDigit(c) then
      Run(b, i, next, IsNumeral) && t == Token(if POINT in b[i..next] then FloatTok else IntTok, i, next)
    else if IsQuote(c) then
      match StringEnd(b, i + 1, c)
      case Closed(e) => t == Token(StringTok, i + 1, e) && next == e + 1
      case Open(e) => t == Token(Invalid, i + 1, e - 1) && next == e
      case Cut => false
    else
      && t == Token(t.tag, i, next)
      && (if t.tag == Invalid then next == i + 1 && NoOperator(b, i)
          else next == i + |OpText(t.tag)| && Longest(b, i, t.tag))
  }

  // At most one token stands at a place.
  lemma {:induction false} OneToken(b: seq<Byte>, i: nat, t: Token, next: nat, t': Token, next': nat)
    requires i <= |b| && TokenAt(b, i, t, next) && TokenAt(b, i, t', next')
    ensures t == t' && next == next'
  {
    hide OpText, Keyword, StringEnd;
    if t.tag != Invalid && t'.tag != Invalid && Longest(b, i, t.tag) && Longest(b, i, t'.tag) {
      SameText(b, i, t.tag, t'.tag);
    }
  }

  lemma SameText(b: seq<Byte>, i: nat, t: Tag, u: Tag)
    requires Matches(b, i, t) && Matches(b, i, u) && |OpText(t)| == |OpText(u)|
    ensures t == u
  {
  }

  // ----- blanks and comments -----

  // None: a comment that the text ends in.
  function Skip(b: seq<Byte>, i: nat): (r: Option<nat>)
    requires i <= |b|
    ensures r.Some? ==> i <= r.value <= |b| && !IsSpace(At(b, r.value)) && At(b, r.value) != HASH
    decreases |b| - i, 1
  {
    if IsSpace(At(b, i)) then Skip(b, i + 1)
    else if At(b, i) == HASH then SkipComment(b, i + 1)
    else Some(i)
  }

  function SkipComment(b: seq<Byte>, i: nat): (r: Option<nat>)
    requires i <= |b|
    ensures r.Some? ==> i <= r.value <= |b| && !IsSpace(At(b, r.value)) && At(b, r.value) != HASH
    decreases |b| - i, 0
  {
    if i == |b| then None else if b[i] == NEWLINE then Skip(b, i + 1) else SkipComment(b, i + 1)
  }

  // The text ends inside a comment, or just after a backslash in a string literal.
  predicate Unfinished(b: seq<Byte>, i: nat)
    requires i <= |b|
  {
    match Skip(b, i)
    case None => true
    case Some(s) => IsQuote(At(b, s)) && StringEnd(b, s + 1, At(b, s)).Cut?
  }

  class Lexer {
    const buffer: seq<Byte>
    var index: nat

    constructor (buffer: seq<Byte>)
      ensures this.buffer == buffer && index == 0
    {
      this.buffer, index := buffer, 0;
    }

    // lexer_next. It fails when it runs past the end of the text.
    method Next() returns (r: Option<Token>)
      requires 0 !in buffer && index <= |buffer|
      modifies this
      ensures r.None? <==> Unfinished(buffer, old(index))
      ensures r.Some? ==> TokenAt(buffer, Skip(buffer, old(index)).value, r.value, index)
    {
      var open := SkipBlanks();
      if open {
        return None;
      }
      var start, character := index, At(buffer, index);
      index := index + 1;
      if character == 0 {
        return Some(Token(Eof, start, start));
      } else if IsQuote(character) {
        r := ReadString(character);
      } else if IsBeginning(character) {
        ReadWhile(IsContinuation);
        r := Some(Token(Keyword(buffer[start..index]), start, index));
      } else if IsDigit(character) {
        var tag := ReadNumber();
        r := Some(Token(tag, start, index));
      } else {
        var tag := ReadOperator(character);
        r := Some(Token(tag, start, index));
      }
    }

    // Blanks and comments.
    method SkipBlanks() returns (open: bool)
      requires index <= |buffer|
      modifies this
      ensures open <==> Skip(buffer, old(index)).None?
      ensures !open ==> index == Skip(buffer, old(index)).value
    {
      var comment := false;
      while true
        invariant index <= |buffer|
        invariant Skip(buffer, old(index)) == if comment then SkipComment(buffer, index) else Skip(buffer, index)
        decreases |buffer| - index, !comment
      {
        if comment {
          if index == |buffer| {
            return true;
          }
          comment := buffer[index] != NEWLINE;
        } else if At(buffer, index) == HASH {
          comment := true;
        } else if !IsSpace(At(buffer, index)) {
          return false;
        }
        index := index + 1;
      }
    }

    method ReadWhile(p: Byte -> bool)
      requires 0 < index <= |buffer| && !p(0)
      modifies this
      ensures Run(buffer, old(index), index, p)
    {
      while p(At(buffer, index))
        invariant old(index) <= index <= |buffer| && forall k | old(index) <= k < index :: p(buffer[k])
        decreases |buffer| - index
      {
        index := index + 1;
      }
    }

    method ReadNumber() returns (tag: Tag)
      requires 0 < index <= |buffer| && buffer[index - 1] != POINT
      modifies this
      ensures Run(buffer, old(index), index, IsNumeral)
      ensures tag == if POINT in buffer[old(index) - 1..index] then FloatTok else IntTok
    {
      tag := IntTok;
      while IsNumeral(At(buffer, index))
        invariant old(index) <= index <= |buffer| && forall k | old(index) <= k < index :: IsNumeral(buffer[k])
        invariant tag == if POINT in buffer[old(index) - 1..index] then FloatTok else IntTok
        decreases |buffer| - index
      {
        assert buffer[old(index) - 1..index + 1] == buffer[old(index) - 1..index] + [buffer[index]];
        if At(buffer, index) == POINT {
          tag := FloatTok;
        }
        index := index + 1;
      }
    }

    // After the opening quote.
    method ReadString(quote: Byte) returns (r: Option<Token>)
      requires 0 < index <= |buffer| && 0 !in buffer && IsQuote(quote)
      modifies this
      ensures var end := StringEnd(buffer, old(index), quote);
              match r
              case None => end == Cut
              case Some(t) =>
                if end.Closed? then t == Token(StringTok, old(index), end.at) && index == end.at + 1
                else end.Open? && t == Token(Invalid, old(index), end.at - 1) && index == end.at
    {
      var start, escaping, tag := index, false, StringTok;
      while true
        invariant start <= index <= |buffer| + 1
        invariant !escaping ==> index <= |buffer| && StringEnd(buffer, start, quote) == StringEnd(buffer, index, quote)
        invariant escaping ==> start < index <= |buffer| && buffer[index - 1] == BACKSLASH
                               && StringEnd(buffer, start, quote) == StringEnd(buffer, index - 1, quote)
        decreases |buffer| + 1 - index
      {
        if escaping {
          if index == |buffer| {
            return None;
          }
          escaping := false;
        } else if At(buffer, index) == BACKSLASH {
          escaping := true;
        } else if At(buffer, index) == 0 || At(buffer, index) == NEWLINE {
          return Some(Token(Invalid, start, index - 1));
        } else if At(buffer, index) == quote {
          index := index + 1;
          return Some(Token(StringTok, start, index - 1));
        }
        index := index + 1;
      }
    }

    // After the first character.
    method ReadOperator(character: Byte) returns (tag: Tag)
      requires 0 < index <= |buffer| && 0 !in buffer && character == buffer[index - 1]
      modifies this
      ensures if tag == Invalid then index == old(index) && NoOperator(buffer, old(index) - 1)
              else index == old(index) - 1 + |OpText(tag)| && Longest(buffer, old(index) - 1, tag)
    {
      hide Longest, NoOperator;
      tag := Operator(character, At(buffer, index), At(buffer, index + 1));
      OperatorLongest(buffer, index - 1, tag);
      if tag != Invalid {
        index := index - 1 + |OpText(tag)|;
      }
    }
  }

  // The switch on the characters of an operator.
  function Operator(first: Byte, second: Byte, third: Byte): Tag {
    match first
    case 40 => OParen
    case 41 => CParen
    case 123 => OBrace
    case 125 => CBrace
    case 91 => OBracket
    case 93 => CBracket
    case 61 => if second == 61 then EqlTok else if second == 62 then RArrow else AssignTok
    case 33 => if second == 61 then NotEql else LogicalNot
    case 43 => if second == 61 then PlusAssign else Plus
    case 45 => if second == 61 then MinusAssign else Minus
    case 42 => if second == 42 then (if third == 61 then ExponentAssign else Exponent)
               else if second == 61 then MultiplyAssign else Multiply
    case 47 => if second == 61 then DivideAssign else Divide
    case 37 => if second == 61 then ModuloAssign else Modulo
    case 60 => if second == 61 then LessThanOrEql else LessThan
    case 62 => if second == 61 then GreaterThanOrEql else GreaterThan
    case 46 => Dot
    case 44 => Comma
    case 58 => Colon
    case _ => Invalid
  }

  lemma OperatorLongest(b: seq<Byte>, i: nat, t: Tag)
    requires t == Operator(At(b, i), At(b, i + 1), At(b, i + 2))
    ensures if t == Invalid then NoOperator(b, i) else Longest(b, i, t) && OpText(t) != []
  {
    if t != Invalid {
      OperatorMatches(b, i, t);
    }
    hide Operator, OpText, Matches;
    forall u | Matches(b, i, u) ensures t != Invalid && |OpText(u)| <= |OpText(t)| {
      OperatorLonger(b, i, t, u);
    }
  }

  lemma OperatorMatches(b: seq<Byte>, i: nat, t: Tag)
    requires t == Operator(At(b, i), At(b, i + 1), At(b, i + 2)) && t != Invalid
    ensures Matches(b, i, t) && OpText(t) != []
  {
  }

  lemma OperatorLonger(b: seq<Byte>, i: nat, t: Tag, u: Tag)
    requires t == Operator(At(b, i), At(b, i + 1), At(b, i + 2)) && Matches(b, i, u)
    ensures t != Invalid && |OpText(u)| <= |OpText(t)|
  {
  }
}

/**
 Tokens written out with a blank after each are read back: the lexer gives their tags and the ranges where they
 were written, then the end of the text.
 */
module Tokens {
  import opened Syntax
  import opened Lexing

  datatype Lexeme = Lexeme(tag: Tag, text: seq<Byte>)

  // A way to write a token with this tag.
  predicate WellSpelled(l: Lexeme) {
    && l.text != []
    && match l.tag
       case Eof => false
       case Invalid => false
       case StringTok => |l.text| >= 2 && IsQuote(l.text[0]) && StringEnd(l.text, 1, l.text[0]) == Closed(|l.text| - 1)
       case IntTok => IsDigit(l.text[0]) && POINT !in l.text && forall c | c in l.text :: IsNumeral(c)
       case FloatTok => IsDigit(l.text[0]) && POINT in l.text && forall c | c in l.text :: IsNumeral(c)
       case _ =>
         if IsBeginning(l.text[0]) then Keyword(l.text) == l.tag && forall c | c in l.text :: IsContinuation(c)
         else l.text == OpText(l.tag)
  }

  function Join(ls: seq<Lexeme>): seq<Byte> {
    if ls == [] then [] else ls[0].text + [BLANK] + Join(ls[1..])
  }

  // The token for a lexeme that is written at i. The quotes of a string are not in its range.
  function Placed(l: Lexeme, i: nat): Token
    requires l.tag == StringTok ==> l.text != []
  {
    if l.tag == StringTok then Token(StringTok, i + 1, i + |l.text| - 1) else Token(l.tag, i, i + |l.text|)
  }

  function Places(ls: seq<Lexeme>, i: nat): seq<Token>
    requires forall l | l in ls :: WellSpelled(l)
  {
    if ls == [] then [Token(Eof, i, i)]
    else
      assert WellSpelled(ls[0]);
      [Placed(ls[0], i)] + Places(ls[1..], i + |ls[0].text| + 1)
  }

  // The lexer, started at i, gives these tokens, the last of which is the end of the text.
  ghost predicate Reads(b: seq<Byte>, i: nat, ts: seq<Token>)
    requires i <= |b|
    decreases |ts|
  {
    && ts != [] && Skip(b, i).Some?
    && exists next :: TokenAt(b, Skip(b, i).value, ts[0], next) && ReadsOn(b, next, ts)
  }

  ghost predicate ReadsOn(b: seq<Byte>, next: nat, ts: seq<Token>)
    requires ts != []
    decreases |ts|, 0
  {
    if ts[0].tag == Eof then |ts| == 1 else next <= |b| && Reads(b, next, ts[1..])
  }

  lemma {:induction false} ReadsOne(b: seq<Byte>, i: nat, ts: seq<Token>, us: seq<Token>)
    requires i <= |b| && Reads(b, i, ts) && Reads(b, i, us)
    ensures ts == us
    decreases |ts|
  {
    hide TokenAt, Skip;
    var s := Skip(b, i).value;
    var n :| TokenAt(b, s, ts[0], n) && ReadsOn(b, n, ts);
    var m :| TokenAt(b, s, us[0], m) && ReadsOn(b, m, us);
    OneToken(b, s, ts[0], n, us[0], m);
    assert ts == [ts[0]] + ts[1..] && us == [us[0]] + us[1..];
    if ts[0].tag != Eof {
      ReadsOne(b, n, ts[1..], us[1..]);
    }
  }

  // ----- one token -----

  lemma {:induction false} StringEndHere(text: seq<Byte>, k: nat, quote: Byte, b: seq<Byte>, i: nat)
    requires k <= |text| && i + |text| <= |b| && b[i..i + |text|] == text && StringEnd(text, k, quote).Closed?
    ensures StringEnd(b, i + k, quote) == Closed(i + StringEnd(text, k, quote).at)
    decreases |text| - k
  {
    assert k < |text| ==> b[i + k] == text[k];
    if At(text, k) == BACKSLASH {
      StringEndHere(text, k + 2, quote, b, i);
    } else if At(text, k) != quote {
      StringEndHere(text, k + 1, quote, b, i);
    }
  }

  lemma RunHere(text: seq<Byte>, b: seq<Byte>, i: nat, p: Byte -> bool)
    requires i + |text| < |b| && b[i..i + |text|] == text && !p(b[i + |text|]) && forall c | c in text :: p(c)
    ensures Run(b, i, i + |text|, p)
  {
    forall k | i <= k < i + |text| ensures p(b[k]) {
      assert b[k] == b[i..i + |text|][k - i];
    }
  }

  lemma LongestHere(b: seq<Byte>, i: nat, t: Tag)
    requires OpText(t) != [] && i + |OpText(t)| < |b| && b[i..i + |OpText(t)|] == OpText(t)
        && b[i + |OpText(t)|] == BLANK
    ensures Longest(b, i, t)
  {
    hide OpText;
    var s := OpText(t);
    var here := b[i..i + |s|];
    assert b[i] == here[0] && (|s| > 1 ==> b[i + 1] == here[1]) && (|s| > 2 ==> b[i + 2] == here[2]);
    forall u | Matches(b, i, u) ensures |OpText(u)| <= |s| {
      assert BLANK !in OpText(u);
    }
  }

  lemma {:induction false} TokenHere(b: seq<Byte>, i: nat, l: Lexeme, next: nat)
    requires WellSpelled(l) && next == i + |l.text| < |b| && b[i..next] == l.text && b[next] == BLANK
    ensures TokenAt(b, i, Placed(l, i), next)
  {
    hide OpText, Keyword, StringEnd, Longest, Run, Matches;
    assert b[i] == b[i..next][0];
    var c := l.text[0];
    if l.tag == StringTok {
      StringEndHere(l.text, 1, c, b, i);
    } else if IsDigit(c) && (l.tag == IntTok || l.tag == FloatTok) {
      RunHere(l.text, b, i, IsNumeral);
    } else if IsBeginning(c) {
      RunHere(l.text, b, i, IsContinuation);
    } else {
      OperatorStarts(l.tag);
      LongestHere(b, i, l.tag);
    }
  }

  lemma OperatorStarts(t: Tag)
    requires OpText(t) != []
    ensures var c := OpText(t)[0]; c != 0 && !IsSpace(c) && !IsBeginning(c) && !IsDigit(c) && !IsQuote(c) && c != HASH
  {
  }

  lemma Starts(l: Lexeme)
    requires WellSpelled(l)
    ensures l.text != [] && var c := l.text[0]; !IsSpace(c) && c != HASH
  {
    hide OpText, StringEnd, Keyword;
    if OpText(l.tag) != [] {
      OperatorStarts(l.tag);
    }
  }

  // ----- all tokens -----

  lemma {:induction false} ReadsFrom(b: seq<Byte>, i: nat, from: nat, ls: seq<Lexeme>)
    requires i <= |b| && b[i..] == Join(ls) && (forall l | l in ls :: WellSpelled(l))
    requires from <= |b| && Skip(b, from) == Skip(b, i)
    ensures Reads(b, from, Places(ls, i))
    decreases |ls|
  {
    hide TokenAt, WellSpelled, Placed, Skip, Reads;
    if ls == [] {
      EndHere(b, i);
      ReadsIs(b, from, i, i + 1, Places(ls, i));
    } else {
      var l, rest := ls[0], Join(ls[1..]);
      var next := i + |l.text|;
      assert l in ls;
      Starts(l);
      Parts(b, i, l.text, rest);
      TokenHere(b, i, l, next);
      SkipHere(b, i);
      SkipBlank(b, next);
      ReadsFrom(b, next + 1, next, ls[1..]);
      NotEof(l, i);
      assert Places(ls, i)[1..] == Places(ls[1..], next + 1);
      ReadsIs(b, from, i, next, Places(ls, i));
    }
  }

  lemma ReadsIs(b: seq<Byte>, from: nat, i: nat, next: nat, ts: seq<Token>)
    requires from <= |b| && i <= |b| && Skip(b, from) == Some(i) && ts != [] && TokenAt(b, i, ts[0], next)
        && ReadsOn(b, next, ts)
    ensures Reads(b, from, ts)
  {
    hide TokenAt, Skip, ReadsOn;
  }

  lemma EndHere(b: seq<Byte>, i: nat)
    requires i == |b|
    ensures Skip(b, i) == Some(i) && TokenAt(b, i, Token(Eof, i, i), i + 1)
  {
  }

  lemma SkipHere(b: seq<Byte>, i: nat)
    requires i < |b| && !IsSpace(b[i]) && b[i] != HASH
    ensures Skip(b, i) == Some(i)
  {
  }

  lemma SkipBlank(b: seq<Byte>, i: nat)
    requires i < |b| && b[i] == BLANK
    ensures Skip(b, i) == Skip(b, i + 1)
  {
  }

  lemma NotEof(l: Lexeme, i: nat)
    requires WellSpelled(l)
    ensures Placed(l, i).tag != Eof
  {
    hide StringEnd, Keyword, OpText;
  }

  lemma Parts(b: seq<Byte>, i: nat, text: seq<Byte>, rest: seq<Byte>)
    requires i <= |b| && b[i..] == text + [BLANK] + rest
    ensures i + |text| < |b| && b[i..i + |text|] == text && b[i + |text|] == BLANK && b[i + |text| + 1..] == rest
    ensures text != [] ==> b[i] == text[0]
  {
    var s := b[i..];
    assert s[..|text|] == text && s[|text|] == BLANK && s[|text| + 1..] == rest;
    assert b[i..i + |text|] == s[..|text|];
    assert b[i + |text| + 1..] == s[|text| + 1..];
  }

  /** Tokens written out are what the lexer reads, and nothing else. */
  lemma {:induction false} TokensRoundTrip(ls: seq<Lexeme>, ts: seq<Token>)
    requires forall l | l in ls :: WellSpelled(l)
    ensures Reads(Join(ls), 0, ts) <==> ts == Places(ls, 0)
  {
    hide Reads;
    assert Join(ls)[0..] == Join(ls);
    ReadsFrom(Join(ls), 0, 0, ls);
    if Reads(Join(ls), 0, ts) {
      ReadsOne(Join(ls), 0, ts, Places(ls, 0));
    }
  }
}

/**
 The tokens of a whole text, as the parser meets them: each with its meaning. How numerals are converted is a
 parameter.
 */
module Scanning {
  import opened Syntax
  import opened Lexing
  import opened Tokens
  import opened Spelling
  import opened Meanings
  import P = Parser

  // One more token of a text.
  lemma {:induction false} ReadsMore(b: seq<Byte>, i: nat, t: Token, next: nat, vs: seq<Token>)
    requires i <= |b| && Skip(b, i).Some? && TokenAt(b, Skip(b, i).value, t, next) && t.tag != Eof && next <= |b|
    ensures Reads(b, i, vs) <==> vs != [] && vs[0] == t && Reads(b, next, vs[1..])
  {
    hide TokenAt, Skip;
    var s := Skip(b, i).value;
    if Reads(b, i, vs) {
      var n :| TokenAt(b, s, vs[0], n) && ReadsOn(b, n, vs);
      OneToken(b, s, t, next, vs[0], n);
    }
    if vs != [] && vs[0] == t && Reads(b, next, vs[1..]) {
      assert ReadsOn(b, next, vs);
    }
  }

  // A text that cannot be read on.
  lemma {:induction false} ReadsNothing(b: seq<Byte>, i: nat, us: seq<Token>)
    requires i <= |b| && Unfinished(b, i)
    ensures !Reads(b, i, us)
  {
    hide StringEnd;
  }

  // The tokens of the text are those read so far and then those from i on.
  ghost predicate ReadSoFar(b: seq<Byte>, ts: seq<Token>, i: nat)
    requires i <= |b|
  {
    forall us :: Reads(b, 0, us) <==> ts <= us && Reads(b, i, us[|ts|..])
  }

  lemma {:induction false} NothingRead(b: seq<Byte>)
    ensures ReadSoFar(b, [], 0)
  {
    hide Reads;
    forall us ensures Reads(b, 0, us) <==> [] <= us && Reads(b, 0, us[0..]) {
      assert us[0..] == us;
    }
  }

  lemma {:induction false} OneMore(b: seq<Byte>, ts: seq<Token>, i: nat, t: Token, next: nat)
    requires i <= |b| && Skip(b, i).Some? && TokenAt(b, Skip(b, i).value, t, next) && t.tag != Eof && next <= |b|
    requires ReadSoFar(b, ts, i)
    ensures ReadSoFar(b, ts + [t], next)
  {
    hide TokenAt, Skip, Reads;
    forall us ensures Reads(b, 0, us) <==> ts + [t] <= us && Reads(b, next, us[|ts| + 1..]) {
      if ts <= us {
        ReadsMore(b, i, t, next, us[|ts|..]);
        if us[|ts|..] != [] {
          assert us[|ts|..][1..] == us[|ts| + 1..] && us[|ts|..][0] == us[|ts|];
          assert ts + [t] <= us <==> us[|ts|] == t;
        }
      }
    }
  }

  lemma {:induction false} AllRead(b: seq<Byte>, ts: seq<Token>, i: nat, t: Token, next: nat)
    requires i <= |b| && Skip(b, i).Some? && TokenAt(b, Skip(b, i).value, t, next) && t.tag == Eof && 0 !in b
    requires ReadSoFar(b, ts, i)
    ensures t == Token(Eof, |b|, |b|) && Reads(b, 0, ts + [t])
  {
    EndToken(b, Skip(b, i).value, t, next);
    hide TokenAt, Skip;
    assert ReadsOn(b, next, [t]) && Reads(b, i, [t]);
    assert (ts + [t])[|ts|..] == [t];
  }

  /** The tokens of a text, with their meaning: the text is written as these tokens. It fails exactly if the text
      cannot be read to its end, and then the text is not written as any tokens. */
  method Scan(text: seq<Byte>, numerals: Numerals) returns (ok: bool, tokens: seq<P.Tok>)
    requires 0 !in text
    ensures ok ==> Written(text, P.LexesOf(tokens), numerals) && forall t | t in tokens :: P.WellLexed(text, t)
    ensures !ok ==> forall ls :: !Written(text, ls, numerals)
  {
    hide TokenAt, Skip, Unfinished, Reads, Read, ReadSoFar, Written, P.WellLexed, P.LexesOf;
    ghost var ts := [];
    tokens := [];
    var lexer := new Lexer(text);
    NothingRead(text);
    while true
      invariant lexer.index <= |text| && lexer.buffer == text && tokens == ReadAll(text, ts, numerals)
      invariant ReadSoFar(text, ts, lexer.index) && forall t | t in ts :: t.tag != Eof
      decreases |text| - lexer.index
    {
      ghost var i := lexer.index;
      NotStuck(text, i);
      var next := lexer.Next();
      if next.None? {
        NothingLeft(text, ts, i);
        NothingWritten(text, numerals);
        return false, [];
      }
      if next.value.tag == Eof {
        AllRead(text, ts, i, next.value, lexer.index);
        AllWritten(text, ts, numerals);
        return true, tokens;
      }
      NextInside(text, Skip(text, i).value, next.value, lexer.index);
      OneMore(text, ts, i, next.value, lexer.index);
      tokens := tokens + [Read(text, next.value, numerals)];
      ts := ts + [next.value];
      assert tokens == ReadAll(text, ts, numerals);
    }
  }

  lemma {:induction false} AllWritten(text: seq<Byte>, ts: seq<Token>, numerals: Numerals)
    requires 0 !in text && Reads(text, 0, ts + [End(text)]) && forall t | t in ts :: t.tag != Eof
    ensures Written(text, P.LexesOf(ReadAll(text, ts, numerals)), numerals)
    ensures forall t | t in ReadAll(text, ts, numerals) :: P.WellLexed(text, t)
  {
    hide Reads, Read, WrittenFrom, ReadAll, MeaningsOf, P.WellLexed, P.LexesOf;
    ReadIsWritten(text, 0, ts, numerals);
    MeaningsAre(text, ts, numerals);
    ReadWell(text, ts, numerals);
  }

  lemma {:induction false} NothingWritten(text: seq<Byte>, numerals: Numerals)
    requires 0 !in text && forall us :: !Reads(text, 0, us)
    ensures forall ls :: !Written(text, ls, numerals)
  {
    hide Reads, WrittenFrom;
    forall ls ensures !Written(text, ls, numerals) {
      if Written(text, ls, numerals) {
        var ts := WrittenIsRead(text, 0, ls, numerals);
      }
    }
  }

  lemma NotStuck(b: seq<Byte>, i: nat)
    requires i <= |b|
    ensures !Unfinished(b, i) ==> Skip(b, i).Some? && i <= Skip(b, i).value <= |b|
  {
  }

  lemma {:induction false} NothingLeft(b: seq<Byte>, ts: seq<Token>, i: nat)
    requires i <= |b| && Unfinished(b, i) && ReadSoFar(b, ts, i)
    ensures forall us :: !Reads(b, 0, us)
  {
    hide Unfinished, Reads;
    forall us ensures !Reads(b, 0, us) {
      if ts <= us {
        ReadsNothing(b, i, us[|ts|..]);
      }
    }
  }
}

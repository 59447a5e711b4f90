/**
 The other direction: whatever the parser returns is spelled by the tokens it took. Together with module Pratt
 the parser is exactly the grammar; printing is then one of the spellings.
 */
module Recognition {
  import opened Syntax
  import opened Grammar
  import opened Pratt

  function Max(a: nat, b: nat): nat {
    if a < b then b else a
  }

  // No token follows that continues an expression.
  predicate Last(rest: seq<Lex>) {
    Precedence(Peek(rest)) == LOWEST
  }

  // A spelling that may stand before the next token.
  ghost predicate SpellsBefore(used: seq<Lex>, e: Expr, m: nat, rest: seq<Lex>) {
    Spells(used, e, Max(m, Precedence(Peek(rest))), Last(rest))
  }

  lemma Lower(ts: seq<Lex>, e: Expr, m: nat, m': nat, last: bool)
    requires Spells(ts, e, m, last) && m' <= m
    ensures Spells(ts, e, m', last)
  {
    hide Bare;
  }

  lemma {:induction false} ExprSpelled(ts: seq<Lex>, p: nat, e: Expr, rest: seq<Lex>) returns (used: seq<Lex>)
    requires p <= PREFIX && ParseExpr(ts, p) == Ok(e, rest)
    ensures ts == used + rest && Spells(used, e, Start(p), Last(rest)) && Precedence(Peek(rest)) <= p
    decreases |ts|, 3
  {
    hide Spells, ParseUnary, ParseLoop;
    var u := ParseUnary(ts);
    var done := UnarySpelled(ts, u.value, u.rest);
    Lower(done, u.value, Max(PREFIX, Precedence(Peek(u.rest))), Max(Start(p), Precedence(Peek(u.rest))), Last(u.rest));
    var more := LoopSpelled(u.value, done, u.rest, p, e, rest);
    used := done + more;
  }

  lemma LoopReads(lhs: Expr, ts: seq<Lex>, p: nat, e: Expr, rest: seq<Lex>)
    requires ParseLoop(Sure(lhs), ts, p) == Ok(e, rest)
    ensures if Precedence(Peek(ts)) > p then
              var b := ParseBinary(Sure(lhs), ts);
              b.Ok? && ParseLoop(Sure(b.value), b.rest, p) == Ok(e, rest)
            else e == lhs && rest == ts
  {
    hide ParseBinary, Precedence;
  }

  lemma {:induction false} LoopSpelled(lhs: Expr, done: seq<Lex>, ts: seq<Lex>, p: nat, e: Expr, rest: seq<Lex>)
      returns (more: seq<Lex>)
    requires p <= PREFIX && SpellsBefore(done, lhs, Start(p), ts) && ParseLoop(Sure(lhs), ts, p) == Ok(e, rest)
    ensures ts == more + rest && Spells(done + more, e, Start(p), Last(rest)) && Precedence(Peek(rest)) <= p
    decreases |ts|, 1
  {
    hide Spells, ParseBinary, ParseLoop, Last;
    LoopReads(lhs, ts, p, e, rest);
    var q := Precedence(Peek(ts));
    if q > p {
      var b := ParseBinary(Sure(lhs), ts);
      var next := BinarySpelled(lhs, done, ts, b.value, b.rest);
      Lower(done + next, b.value, Max(q, Precedence(Peek(b.rest))), Max(Start(p), Precedence(Peek(b.rest))),
          Last(b.rest));
      var last := LoopSpelled(b.value, done + next, b.rest, p, e, rest);
      more := next + last;
      assert done + more == done + next + last;
    } else {
      more := [];
      assert done + more == done;
      Lower(done, lhs, Max(Start(p), q), Start(p), Last(ts));
    }
  }

  lemma {:induction false} BinarySpelled(lhs: Expr, done: seq<Lex>, ts: seq<Lex>, e: Expr, rest: seq<Lex>)
      returns (more: seq<Lex>)
    requires Precedence(Peek(ts)) > LOWEST && SpellsBefore(done, lhs, LOWEST, ts)
        && ParseBinary(Sure(lhs), ts) == Ok(e, rest)
    ensures ts == more + rest && SpellsBefore(done + more, e, Precedence(Peek(ts)), rest)
    decreases |ts|, 0
  {
    hide Spells, ParseExpr, ParseItems, ParseSubscript;
    assert ts == [Peek(ts)] + Rest(ts);
    match Peek(ts)
    case AssignTok(op) => more := InfixSpelled(lhs, done, Peek(ts), Rest(ts), ASSIGN, e.value, rest);
    case OpTok(op) => more := InfixSpelled(lhs, done, Peek(ts), Rest(ts), OpPrecedence(op), e.rhs, rest);
    case OParen => more := CallSpelled(lhs, done, Rest(ts), e.args, rest);
    case Dot => more := MemberSpelled(lhs, done, Rest(ts), rest);
    case OBracket => more := SubscriptSpelled(lhs, done, Rest(ts), e, rest);
  }

  lemma {:induction false} InfixSpelled(lhs: Expr, done: seq<Lex>, op: Lex, ts: seq<Lex>, q: nat, rhs: Expr,
      rest: seq<Lex>) returns (more: seq<Lex>)
    requires (op.OpTok? || op.AssignTok?) && q == Precedence(op) && Spells(done, lhs, q, false)
        && ParseExpr(ts, q) == Ok(rhs, rest)
    ensures [op] + ts == more + rest && SpellsBefore(done + more, Applied(op, lhs, rhs), q, rest)
    decreases |ts|, 4
  {
    hide Spells, ParseExpr;
    var right := ExprSpelled(ts, q, rhs, rest);
    more := [op] + right;
    BareInfix(done, op, right, lhs, rhs, q, Last(rest), done + more);
    IsBare(done + more, Applied(op, lhs, rhs), q, Last(rest));
  }

  lemma BareInfix(left: seq<Lex>, op: Lex, right: seq<Lex>, l: Expr, r: Expr, q: nat, last: bool, ts: seq<Lex>)
    requires (op.OpTok? || op.AssignTok?) && q == Precedence(op) && Spells(left, l, q, false)
        && Spells(right, r, q + 1, last) && ts == left + ([op] + right)
    ensures Bare(ts, Applied(op, l, r), last) && Level(Applied(op, l, r)) == q
  {
    hide Spells, Bare;
    assert ts[..|left|] == left && ts[|left| + 1..] == right;
    IsInfix(ts, |left|, op, l, r, q, last);
  }

  lemma IsInfix(ts: seq<Lex>, i: nat, op: Lex, l: Expr, r: Expr, q: nat, last: bool)
    requires i < |ts| && (op.OpTok? || op.AssignTok?) && q == Precedence(op) && Infix(ts, i, op, l, r, q, last)
    ensures Bare(ts, Applied(op, l, r), last)
  {
    hide Spells, Infix;
  }

  lemma {:induction false} CallSpelled(f: Expr, done: seq<Lex>, ts: seq<Lex>, args: seq<Expr>, rest: seq<Lex>)
      returns (more: seq<Lex>)
    requires Spells(done, f, POSTFIX, false) && ParseItems(ts, CParen) == Ok(args, rest)
    ensures [OParen] + ts == more + rest && SpellsBefore(done + more, Call(f, args), POSTFIX, rest)
    decreases |ts|, 5
  {
    hide Spells, SpellsItems, ParseItems;
    var items := ItemsSpelled(ts, CParen, args, rest);
    more := [OParen] + items;
    BareCall(done, items, f, args, Last(rest), done + more);
    IsBare(done + more, Call(f, args), POSTFIX, Last(rest));
  }

  lemma BareCall(done: seq<Lex>, items: seq<Lex>, f: Expr, args: seq<Expr>, last: bool, ts: seq<Lex>)
    requires Spells(done, f, POSTFIX, false) && SpellsItems(items, args, CParen) && ts == done + ([OParen] + items)
    ensures Bare(ts, Call(f, args), last)
  {
    hide Spells, SpellsItems;
    assert ts[..|done|] == done && ts[|done| + 1..] == items;
    assert CallAt(ts, |done|, f, args);
  }

  lemma IsBare(ts: seq<Lex>, e: Expr, m: nat, last: bool)
    requires Bare(ts, e, last) && m <= Level(e)
    ensures Spells(ts, e, m, last)
  {
  }

  lemma MemberSpelled(t: Expr, done: seq<Lex>, ts: seq<Lex>, rest: seq<Lex>) returns (more: seq<Lex>)
    requires Spells(done, t, POSTFIX, false) && Peek(ts).Id? && rest == Rest(ts)
    ensures [Dot] + ts == more + rest && SpellsBefore(done + more, Member(t, Peek(ts).x), POSTFIX, rest)
  {
    hide Spells;
    more := [Dot, ts[0]];
    assert (done + more)[..|done|] == done;
    IsBare(done + more, Member(t, ts[0].x), POSTFIX, Last(rest));
  }

  lemma IsPostfix(used: seq<Lex>, e: Expr, rest: seq<Lex>)
    requires Bare(used, e, Last(rest)) && Level(e) == POSTFIX
    ensures SpellsBefore(used, e, POSTFIX, rest)
  {
    hide Bare;
  }

  lemma SubscriptReads(t: Expr, ts: seq<Lex>, e: Expr, rest: seq<Lex>)
    requires ParseSubscript(Sure(t), ts) == Ok(e, rest)
    ensures Peek(ts) == Colon ==> ParseSliceEnd(Sure((t, None)), Rest(ts)) == Ok(e, rest)
    ensures Peek(ts) != Colon ==>
              var start := ParseExpr(ts, LOWEST);
              && start.Ok?
              && if Peek(start.rest) == Colon then
                   ParseSliceEnd(Sure((t, Some(start.value))), Rest(start.rest)) == Ok(e, rest)
                 else start.rest == [CBracket] + rest && e == Subscript(t, start.value)
  {
    hide ParseExpr, ParseSliceEnd;
  }

  lemma {:induction false} SubscriptSpelled(t: Expr, done: seq<Lex>, ts: seq<Lex>, e: Expr, rest: seq<Lex>)
      returns (more: seq<Lex>)
    requires Spells(done, t, POSTFIX, false) && ParseSubscript(Sure(t), ts) == Ok(e, rest)
    ensures [OBracket] + ts == more + rest && SpellsBefore(done + more, e, POSTFIX, rest)
    decreases |ts|, 5
  {
    hide Spells, Bare, SpellsBefore, ParseExpr, ParseSliceEnd, ParseSubscript;
    SubscriptReads(t, ts, e, rest);
    if Peek(ts) == Colon {
      more := SliceSpelled(t, done, [], None, Rest(ts), e, rest);
      assert ts == [Colon] + Rest(ts);
    } else {
      var start := ParseExpr(ts, LOWEST);
      var r := start.rest;
      var inner := ExprSpelled(ts, LOWEST, start.value, r);
      assert r == [Peek(r)] + Rest(r);
      if Peek(r) == Colon {
        more := SliceSpelled(t, done, inner, Some(start.value), Rest(r), e, rest);
      } else {
        more := [OBracket] + (inner + [CBracket]);
        BareSubscript(done, inner, t, start.value, Last(rest), done + more);
        IsPostfix(done + more, e, rest);
      }
    }
  }

  lemma {:induction false} SliceSpelled(t: Expr, done: seq<Lex>, start: seq<Lex>, a: Option<Expr>, ts: seq<Lex>,
      e: Expr, rest: seq<Lex>)
    returns (more: seq<Lex>)
    requires Spells(done, t, POSTFIX, false) && SpellsBound(start, a) && ParseSliceEnd(Sure((t, a)), ts) == Ok(e, rest)
    ensures [OBracket] + (start + ([Colon] + ts)) == more + rest && SpellsBefore(done + more, e, POSTFIX, rest)
    decreases |ts|, 5
  {
    hide Spells, SpellsBound, Bare, SpellsBefore, ParseSliceEnd;
    var end := EndSpelled(t, a, ts, e, rest);
    more := [OBracket] + (start + ([Colon] + (end + [CBracket])));
    BareSlice(done, start, end, t, a, e.end, Last(rest), done + more);
    IsPostfix(done + more, e, rest);
  }

  lemma BareSubscript(done: seq<Lex>, inner: seq<Lex>, t: Expr, k: Expr, last: bool, ts: seq<Lex>)
    requires Spells(done, t, POSTFIX, false) && Spells(inner, k, ASSIGN, true)
        && ts == done + ([OBracket] + (inner + [CBracket]))
    ensures Bare(ts, Subscript(t, k), last)
  {
    hide Spells;
    assert ts[..|done|] == done && ts[|done| + 1..|ts| - 1] == inner;
    IsSubscript(ts, |done|, t, k, last);
  }

  lemma IsSubscript(ts: seq<Lex>, i: nat, t: Expr, k: Expr, last: bool)
    requires i < |ts| && SubscriptAt(ts, i, t, k)
    ensures Bare(ts, Subscript(t, k), last)
  {
    hide SubscriptAt;
  }

  lemma BareSlice(done: seq<Lex>, start: seq<Lex>, end: seq<Lex>, t: Expr, a: Option<Expr>, b: Option<Expr>,
      last: bool, ts: seq<Lex>)
    requires Spells(done, t, POSTFIX, false) && SpellsBound(start, a) && SpellsBound(end, b)
    requires ts == done + ([OBracket] + (start + ([Colon] + (end + [CBracket]))))
    ensures Bare(ts, Slice(t, a, b), last)
  {
    hide Spells, SpellsBound;
    var c := |done| + 1 + |start|;
    assert ts[..|done|] == done && ts[|done| + 1..c] == start && ts[c + 1..|ts| - 1] == end;
    assert SliceAt(ts, |done|, c, t, a, b);
  }

  lemma {:induction false} EndSpelled(t: Expr, start: Option<Expr>, ts: seq<Lex>, e: Expr, rest: seq<Lex>)
      returns (end: seq<Lex>)
    requires ParseSliceEnd(Sure((t, start)), ts) == Ok(e, rest)
    ensures e.Slice? && e == Slice(t, start, e.end) && SpellsBound(end, e.end) && ts == end + [CBracket] + rest
    decreases |ts|, 4
  {
    hide Spells, ParseExpr;
    if Peek(ts) == CBracket {
      end := [];
    } else {
      end := ExprSpelled(ts, LOWEST, e.end.value, [CBracket] + rest);
    }
  }

  lemma {:induction false} ItemsSpelled(ts: seq<Lex>, close: Lex, es: seq<Expr>, rest: seq<Lex>)
      returns (used: seq<Lex>)
    requires close in {CParen, CBracket} && ParseItems(ts, close) == Ok(es, rest)
    ensures ts == used + rest && SpellsItems(used, es, close)
    decreases |ts|, 4
  {
    hide Spells, ParseExpr, SkipComma;
    if Peek(ts) == close {
      used := [close];
    } else {
      var r := ParseExpr(ts, LOWEST).rest;
      var item := ExprSpelled(ts, LOWEST, es[0], r);
      SkipsComma(r);
      var items := ItemsSpelled(SkipComma(r), close, es[1..], rest);
      used := item + (Commas(r) + items);
      ItemsMore(item, r, items, es, close, rest, used);
    }
  }

  // What SkipComma skips.
  function Commas(r: seq<Lex>): seq<Lex> {
    if Peek(r) == Comma then [Comma] else []
  }

  lemma SkipsComma(r: seq<Lex>)
    ensures r == Commas(r) + SkipComma(r) && forall t | t in SkipComma(r) :: t in r
  {
  }

  // What SkipComma does is seen from the items alone.
  lemma SkipsBack(r: seq<Lex>, more: seq<Lex>, rest: seq<Lex>)
    requires SkipComma(r) == more + rest && more != [] && more[0] != Comma && Precedence(Peek(r)) == LOWEST
    ensures var back := Commas(r) + more;
            && back != [] && SkipComma(back) == more && Precedence(back[0]) == LOWEST && r == back + rest
  {
  }

  lemma {:induction false} ItemsMore(item: seq<Lex>, r: seq<Lex>, items: seq<Lex>, es: seq<Expr>, close: Lex,
      rest: seq<Lex>, used: seq<Lex>)
    requires close in {CParen, CBracket} && es != [] && Spells(item, es[0], ASSIGN, true)
        && Precedence(Peek(r)) == LOWEST
    requires SkipComma(r) == items + rest && SpellsItems(items, es[1..], close) && used == item + (Commas(r) + items)
    ensures SpellsItems(used, es, close) && item + r == used + rest
  {
    hide Spells, SpellsItems, SkipComma, Commas, Precedence;
    FirstToken(item, es[0], ASSIGN, true);
    ItemsStart(items, es[1..], close);
    SkipsBack(r, items, rest);
    assert used[..|item|] == item && used[|item|..] == Commas(r) + items;
    IsItems(used, |item|, es, close);
  }

  lemma IsItems(ts: seq<Lex>, i: nat, es: seq<Expr>, close: Lex)
    requires 0 < i < |ts| && es != [] && ItemAt(ts, i, es, close)
    ensures SpellsItems(ts, es, close)
  {
    hide Spells;
  }

  lemma {:induction false} PairsSpelled(ts: seq<Lex>, es: seq<Expr>, rest: seq<Lex>) returns (used: seq<Lex>)
    requires ParsePairs(ts) == Ok(es, rest)
    ensures ts == used + rest && SpellsPairs(used, es)
    decreases |ts|, 5
  {
    hide Spells, ParseExpr, ParsePair, SkipComma;
    if Peek(ts) == CBrace {
      used := [CBrace];
    } else {
      var pair := ParsePair(ts);
      assert pair.value == [pair.value[0], pair.value[1]];
      var key, value := PairSpelled(ts, pair.value[0], pair.value[1], pair.rest);
      SkipsComma(pair.rest);
      assert es[0] == pair.value[0] && es[1] == pair.value[1] && ParsePairs(SkipComma(pair.rest)) == Ok(es[2..], rest);
      var pairs := PairsSpelled(SkipComma(pair.rest), es[2..], rest);
      used := key + [Colon] + value + (Commas(pair.rest) + pairs);
      PairsMore(key, value, pair.rest, pairs, es, rest, used);
    }
  }

  lemma {:induction false} PairSpelled(ts: seq<Lex>, k: Expr, v: Expr, rest: seq<Lex>)
      returns (key: seq<Lex>, value: seq<Lex>)
    requires ParsePair(ts) == Ok([k, v], rest)
    ensures ts == key + [Colon] + value + rest && Spells(key, k, ASSIGN, true) && Spells(value, v, ASSIGN, true)
        && Precedence(Peek(rest)) == LOWEST
    decreases |ts|, 4
  {
    hide Spells, ParseExpr;
    var r := ParseExpr(ts, LOWEST).rest;
    key := ExprSpelled(ts, LOWEST, k, r);
    assert r == [Colon] + Rest(r);
    value := ExprSpelled(Rest(r), LOWEST, v, rest);
  }

  lemma {:induction false} PairsMore(key: seq<Lex>, value: seq<Lex>, r: seq<Lex>, pairs: seq<Lex>, es: seq<Expr>,
      rest: seq<Lex>, used: seq<Lex>)
    requires |es| >= 2 && Spells(key, es[0], ASSIGN, true) && Spells(value, es[1], ASSIGN, true)
        && Precedence(Peek(r)) == LOWEST
    requires SkipComma(r) == pairs + rest && SpellsPairs(pairs, es[2..])
    requires used == key + [Colon] + value + (Commas(r) + pairs)
    ensures SpellsPairs(used, es) && key + [Colon] + value + r == used + rest
  {
    hide Spells, SpellsPairs, SkipComma, Commas, Precedence;
    PairsStart(pairs, es[2..]);
    SkipsBack(r, pairs, rest);
    var c := |key|;
    var i := c + 1 + |value|;
    assert used[..c] == key && used[c] == Colon && used[c + 1..i] == value && used[i..] == Commas(r) + pairs;
    IsPairs(used, c, i, es);
  }

  lemma IsPairs(ts: seq<Lex>, c: nat, i: nat, es: seq<Expr>)
    requires c < i < |ts| && |es| >= 2 && PairAt(ts, c, i, es)
    ensures SpellsPairs(ts, es)
  {
    hide Spells;
  }

  lemma {:induction false} UnarySpelled(ts: seq<Lex>, e: Expr, rest: seq<Lex>) returns (used: seq<Lex>)
    requires ParseUnary(ts) == Ok(e, rest)
    ensures ts == used + rest && SpellsBefore(used, e, PREFIX, rest)
    decreases |ts|, 2
  {
    hide Spells, SpellsItems, SpellsPairs, SpellsFunction, ParseExpr, ParseItems, ParsePairs, ParseFunction;
    assert ts == [Peek(ts)] + Rest(ts);
    match Peek(ts)
    case OParen => used := ParensSpelled(Rest(ts), e, rest);
    case OBracket => used := ArraySpelled(Rest(ts), e.items, rest);
    case OBrace => used := MapSpelled(Rest(ts), e.items, rest);
    case OpTok(Sub) => used := PrefixSpelled(Neg, Rest(ts), e.operand, rest);
    case Bang => used := PrefixSpelled(Not, Rest(ts), e.operand, rest);
    case FnTok => used := FnSpelled(Rest(ts), e, rest);
    case _ =>
      used := [Peek(ts)];
      IsAtom(used, e, rest);
  }

  lemma IsAtom(used: seq<Lex>, e: Expr, rest: seq<Lex>)
    requires Bare(used, e, Last(rest)) && Level(e) == ATOM
    ensures SpellsBefore(used, e, PREFIX, rest)
  {
    hide Bare;
  }

  lemma {:induction false} ArraySpelled(ts: seq<Lex>, items: seq<Expr>, rest: seq<Lex>) returns (used: seq<Lex>)
    requires ParseItems(ts, CBracket) == Ok(items, rest)
    ensures [OBracket] + ts == used + rest && SpellsBefore(used, Array(items), PREFIX, rest)
    decreases |ts|, 5
  {
    hide Spells, SpellsItems, ParseItems;
    var more := ItemsSpelled(ts, CBracket, items, rest);
    used := [OBracket] + more;
    IsAtom(used, Array(items), rest);
  }

  lemma {:induction false} MapSpelled(ts: seq<Lex>, items: seq<Expr>, rest: seq<Lex>) returns (used: seq<Lex>)
    requires ParsePairs(ts) == Ok(items, rest)
    ensures [OBrace] + ts == used + rest && SpellsBefore(used, MapLit(items), PREFIX, rest)
    decreases |ts|, 6
  {
    hide Spells, SpellsPairs, ParsePairs;
    var more := PairsSpelled(ts, items, rest);
    used := [OBrace] + more;
    IsAtom(used, MapLit(items), rest);
  }

  lemma {:induction false} ParensSpelled(ts: seq<Lex>, e: Expr, rest: seq<Lex>) returns (used: seq<Lex>)
    requires ParseExpr(ts, LOWEST) == Ok(e, [CParen] + rest)
    ensures [OParen] + ts == used + rest && SpellsBefore(used, e, PREFIX, rest)
    decreases |ts|, 4
  {
    hide Bare, ParseExpr;
    var inner := ExprSpelled(ts, LOWEST, e, [CParen] + rest);
    used := [OParen] + inner + [CParen];
    assert used[1..|used| - 1] == inner;
  }

  lemma {:induction false} PrefixSpelled(op: UnaryOp, ts: seq<Lex>, v: Expr, rest: seq<Lex>) returns (used: seq<Lex>)
    requires ParseExpr(ts, PREFIX) == Ok(v, rest)
    ensures [UnaryTok(op)] + ts == used + rest && SpellsBefore(used, Unary(op, v), PREFIX, rest)
    decreases |ts|, 4
  {
    hide Spells, ParseExpr;
    var operand := ExprSpelled(ts, PREFIX, v, rest);
    used := [UnaryTok(op)] + operand;
    IsBare(used, Unary(op, v), PREFIX, Last(rest));
  }

  // ----- functions -----

  lemma {:induction false} FnSpelled(ts: seq<Lex>, e: Expr, rest: seq<Lex>) returns (used: seq<Lex>)
    requires ParseFunction(ts) == Ok(e, rest)
    ensures [FnTok] + ts == used + rest && SpellsBefore(used, e, PREFIX, rest)
    decreases |ts|, 6
  {
    hide Spells, SpellsFunction, ParseFunction;
    var more := FunctionSpelled(ts, e, rest);
    used := [FnTok] + more;
    assert used[1..] == more;
    IsAtom(used, e, rest);
  }

  lemma {:induction false} ParamsSpelled(ts: seq<Lex>, xs: seq<Name>, rest: seq<Lex>) returns (used: seq<Lex>)
    requires ParseParams(ts) == Ok(xs, rest)
    ensures ts == used + rest && SpellsParams(used, xs)
    decreases |ts|
  {
    hide SpellsParams, SkipComma;
    if xs == [] {
      used := [];
      NoParams();
    } else {
      var r := Rest(ts);
      var more := ParamsSpelled(SkipComma(r), xs[1..], rest);
      used := [Id(xs[0])] + (Commas(r) + more);
      ParamsMore(r, more, xs, rest, used);
      assert ts == [Id(xs[0])] + r;
    }
  }

  lemma NoParams()
    ensures SpellsParams([], [])
  {
  }

  lemma {:induction false} ParamsMore(r: seq<Lex>, more: seq<Lex>, xs: seq<Name>, rest: seq<Lex>, used: seq<Lex>)
    requires xs != [] && SpellsParams(more, xs[1..]) && SkipComma(r) == more + rest
        && used == [Id(xs[0])] + (Commas(r) + more)
    ensures SpellsParams(used, xs) && [Id(xs[0])] + r == used + rest
  {
    hide SkipComma, Commas, SpellsParams;
    CommaBack(r, more, xs[1..], rest);
    SkipsComma(r);
    var inner := Commas(r) + more;
    IsParams(used, inner, xs);
    assert r == inner + rest;
  }

  lemma {:induction false} IsParams(ts: seq<Lex>, inner: seq<Lex>, xs: seq<Name>)
    requires xs != [] && ts == [Id(xs[0])] + inner && SpellsParams(SkipComma(inner), xs[1..])
    ensures SpellsParams(ts, xs)
  {
    hide SkipComma;
    assert ts[1..] == inner;
  }

  lemma {:induction false} CommaBack(r: seq<Lex>, more: seq<Lex>, xs: seq<Name>, rest: seq<Lex>)
    requires SpellsParams(more, xs) && SkipComma(r) == more + rest
    ensures SkipComma(Commas(r) + more) == more
  {
    if Peek(r) == Comma {
      assert ([Comma] + more)[1..] == more;
    } else {
      assert [] + more == more;
      assert more != [] ==> more[0] == r[0];
    }
  }

  lemma {:induction false} FunctionSpelled(ts: seq<Lex>, e: Expr, rest: seq<Lex>) returns (used: seq<Lex>)
    requires ParseFunction(ts) == Ok(e, rest)
    ensures ts == used + rest && e.Fn? && SpellsFunction(used, e.fn, Last(rest))
    decreases |ts|, 5
  {
    hide Spells, SpellsStmts, SpellsParams, SpellsFunction, FunctionAt, ParseParams, ParseExpr, ParseStmts,
        ParseFunction, SkipComma;
    FunctionReads(ts, e, rest);
    var params := ParseParams(ts);
    var r := params.rest;
    var names := ParamsSpelled(ts, params.value, r);
    assert r == [Peek(r)] + Rest(r);
    var body: seq<Lex>;
    if Peek(r) == Arrow {
      body := ExprSpelled(Rest(r), LOWEST, e.fn.code.result, rest);
    } else {
      body := StmtsSpelled(Rest(r), e.fn.code.body, rest);
    }
    used := names + ([Peek(r)] + body);
    FunctionParts(names, Peek(r), body, e.fn, Last(rest), used);
  }

  lemma FunctionReads(ts: seq<Lex>, e: Expr, rest: seq<Lex>)
    requires ParseFunction(ts) == Ok(e, rest)
    ensures var params := ParseParams(ts);
            && params.Ok? && e.Fn? && e.fn.params == params.value && |params.rest| <= |ts|
            && match Peek(params.rest)
               case Arrow => e.fn.code.Return? && ParseExpr(Rest(params.rest), LOWEST) == Ok(e.fn.code.result, rest)
               case OBrace => e.fn.code.Block? && ParseStmts(Rest(params.rest)) == Ok(e.fn.code.body, rest)
               case _ => false
  {
    hide ParseExpr, ParseStmts;
  }

  lemma FunctionParts(names: seq<Lex>, t: Lex, body: seq<Lex>, f: Function, last: bool, used: seq<Lex>)
    requires SpellsParams(names, f.params) && used == names + ([t] + body)
    requires || (t == Arrow && last && f.code.Return? && Spells(body, f.code.result, ASSIGN, true))
             || (t == OBrace && f.code.Block? && SpellsStmts(body, f.code.body))
    ensures SpellsFunction(used, f, last)
  {
    hide Spells, SpellsStmts, SpellsParams, SpellsFunction;
    assert used[..|names|] == names && used[|names| + 1..] == body;
    IsFunction(used, |names|, f, last);
  }

  lemma IsFunction(ts: seq<Lex>, i: nat, f: Function, last: bool)
    requires i < |ts| && FunctionAt(ts, i, f, last)
    ensures SpellsFunction(ts, f, last)
  {
    hide FunctionAt;
  }

  // ----- statements -----

  lemma StmtsReads(ts: seq<Lex>, body: seq<Stmt>, rest: seq<Lex>)
    requires ParseStmts(ts) == Ok(body, rest)
    ensures if Peek(ts) == CBrace then body == [] && rest == Rest(ts)
            else
              var first := ParseStmt(ts);
              && first.Ok? && body != [] && body[0] == first.value && Peek(first.rest) != Eof
              && ParseStmts(first.rest) == Ok(body[1..], rest)
  {
    hide ParseStmt;
  }

  lemma {:induction false} StmtsSpelled(ts: seq<Lex>, body: seq<Stmt>, rest: seq<Lex>) returns (used: seq<Lex>)
    requires ParseStmts(ts) == Ok(body, rest)
    ensures ts == used + rest && SpellsStmts(used, body)
    decreases |ts|, 6
  {
    hide SpellsS, ParseStmt, ParseStmts;
    StmtsReads(ts, body, rest);
    if Peek(ts) == CBrace {
      used := [CBrace];
    } else {
      var r := ParseStmt(ts).rest;
      var first := StmtSpelled(ts, body[0], r);
      var more := StmtsSpelled(r, body[1..], rest);
      used := first + more;
      StmtsMore(first, more, body, r, rest, used);
    }
  }

  lemma {:induction false} StmtsMore(first: seq<Lex>, more: seq<Lex>, body: seq<Stmt>, r: seq<Lex>, rest: seq<Lex>,
      used: seq<Lex>)
    requires body != [] && SpellsS(first, body[0], Peek(r)) && SpellsStmts(more, body[1..]) && r == more + rest
        && used == first + more
    ensures SpellsStmts(used, body)
  {
    hide SpellsS, SpellsStmts;
    StmtStart(first, body[0], Peek(r));
    StmtsStart(more, body[1..]);
    assert used[..|first|] == first && used[|first|..] == more && used[|first|] == Peek(r);
    IsStmts(used, |first|, body);
  }

  lemma IsStmts(ts: seq<Lex>, i: nat, body: seq<Stmt>)
    requires 0 < i < |ts| && body != [] && StmtAt(ts, i, body)
    ensures SpellsStmts(ts, body)
  {
    hide SpellsS;
  }

  lemma {:induction false} StmtSpelled(ts: seq<Lex>, s: Stmt, rest: seq<Lex>) returns (used: seq<Lex>)
    requires ParseStmt(ts) == Ok(s, rest)
    ensures ts == used + rest && SpellsS(used, s, Peek(rest))
    decreases |ts|, 5
  {
    hide SpellsS, ParseStmt;
    StmtReads(ts, s, rest);
    hide Returned, Blocked, ParseExpr, ParseStmts, ParseConditional, ParseWhile;
    if ts[0] == OBrace {
      used := BlockSpelled(ts, s, rest);
    } else if ts[0] == WhileTok {
      used := WhileSpelled(ts, s, rest);
    } else if ts[0] == IfTok {
      used := IfSpelled(ts, s, rest);
    } else if ts[0] == ReturnTok {
      used := ReturnSpelled(ts, s, rest);
    } else if ts[0] == BreakTok || ts[0] == ContinueTok {
      used := [ts[0]];
      JumpSpelled(s, Peek(rest));
    } else {
      used := ExprStmtSpelled(ts, s.expr, rest);
    }
  }

  lemma JumpSpelled(s: Stmt, next: Lex)
    requires s.Break? || s.Continue?
    ensures SpellsS([if s.Break? then BreakTok else ContinueTok], s, next)
  {
  }

  lemma StmtReads(ts: seq<Lex>, s: Stmt, rest: seq<Lex>)
    requires ParseStmt(ts) == Ok(s, rest)
    ensures ts != [] && ts == [ts[0]] + Rest(ts)
    ensures match ts[0]
            case OBrace => s.Block? && ParseStmts(Rest(ts)) == Ok(s.body, rest)
            case WhileTok => ParseWhile(Rest(ts)) == Ok(s, rest)
            case IfTok => ParseConditional(Rest(ts)) == Ok(s, rest)
            case ReturnTok => s.Return? && ParseExpr(Rest(ts), LOWEST) == Ok(s.result, rest)
            case BreakTok => s.Break? && rest == Rest(ts)
            case ContinueTok => s.Continue? && rest == Rest(ts)
            case _ => s.ExprStmt? && ParseExpr(ts, LOWEST) == Ok(s.expr, rest)
  {
    hide ParseExpr, ParseStmts, ParseConditional, ParseWhile;
  }

  lemma {:induction false} BlockSpelled(ts: seq<Lex>, s: Stmt, rest: seq<Lex>) returns (used: seq<Lex>)
    requires ts != [] && ts[0] == OBrace && s.Block? && ParseStmts(Rest(ts)) == Ok(s.body, rest)
    ensures ts == used + rest && SpellsS(used, s, Peek(rest))
    decreases |ts|, 4
  {
    hide SpellsStmts, ParseStmts;
    var more := StmtsSpelled(Rest(ts), s.body, rest);
    used := [OBrace] + more;
    assert used[1..] == more;
  }

  lemma {:induction false} IfSpelled(ts: seq<Lex>, s: Stmt, rest: seq<Lex>) returns (used: seq<Lex>)
    requires ts != [] && ts[0] == IfTok && ParseConditional(Rest(ts)) == Ok(s, rest)
    ensures ts == used + rest && SpellsS(used, s, Peek(rest))
    decreases |ts|, 4
  {
    hide SpellsCond, ParseConditional;
    var more := CondSpelled(Rest(ts), s, rest);
    used := [IfTok] + more;
    assert used[1..] == more;
  }

  lemma {:induction false} ReturnSpelled(ts: seq<Lex>, s: Stmt, rest: seq<Lex>) returns (used: seq<Lex>)
    requires ts != [] && ts[0] == ReturnTok && s.Return? && ParseExpr(Rest(ts), LOWEST) == Ok(s.result, rest)
    ensures ts == used + rest && SpellsS(used, s, Peek(rest))
    decreases |ts|, 4
  {
    hide Spells, ParseExpr;
    var more := ExprSpelled(Rest(ts), LOWEST, s.result, rest);
    used := [ReturnTok] + more;
    assert used[1..] == more;
  }

  lemma {:induction false} ExprStmtSpelled(ts: seq<Lex>, e: Expr, rest: seq<Lex>) returns (used: seq<Lex>)
    requires Peek(ts) != OBrace && ParseExpr(ts, LOWEST) == Ok(e, rest)
    ensures ts == used + rest && SpellsS(used, ExprStmt(e), Peek(rest))
    decreases |ts|, 4
  {
    hide Spells, ParseExpr;
    used := ExprSpelled(ts, LOWEST, e, rest);
    FirstToken(used, e, ASSIGN, true);
  }

  lemma WhileReads(ts: seq<Lex>, s: Stmt, rest: seq<Lex>)
    requires ParseWhile(ts) == Ok(s, rest)
    ensures var cond := ParseExpr(ts, LOWEST);
            && cond.Ok? && s.While? && s.condition == cond.value && ParseArm(cond.rest) == Ok(s.loopBody, rest)
  {
    hide ParseExpr, ParseArm;
  }

  lemma {:induction false} WhileSpelled(ts: seq<Lex>, s: Stmt, rest: seq<Lex>) returns (used: seq<Lex>)
    requires ts != [] && ts[0] == WhileTok && ParseWhile(Rest(ts)) == Ok(s, rest)
    ensures ts == used + rest && SpellsS(used, s, Peek(rest))
    decreases |ts|, 4
  {
    hide Spells, SpellsArm, ParseExpr, ParseArm, ParseWhile;
    WhileReads(Rest(ts), s, rest);
    var cond := ParseExpr(Rest(ts), LOWEST);
    var test := ExprSpelled(Rest(ts), LOWEST, cond.value, cond.rest);
    var arm := ArmSpelled(cond.rest, s.loopBody, rest);
    ArmStart(arm, s.loopBody, Peek(rest));
    used := [WhileTok] + test + arm;
    var i := 1 + |test|;
    assert used[1..i] == test && used[i..] == arm;
    assert WhileAt(used, i, s.condition, s.loopBody, Peek(rest));
  }

  lemma ArmReads(ts: seq<Lex>, s: Stmt, rest: seq<Lex>)
    requires ParseArm(ts) == Ok(s, rest)
    ensures ts != [] && ts == [ts[0]] + Rest(ts)
    ensures || (ts[0] == Arrow && ParseStmt(Rest(ts)) == Ok(s, rest))
            || (ts[0] == OBrace && s.Block? && ParseStmts(Rest(ts)) == Ok(s.body, rest))
  {
    hide ParseStmt, ParseStmts;
  }

  lemma {:induction false} ArmSpelled(ts: seq<Lex>, s: Stmt, rest: seq<Lex>) returns (used: seq<Lex>)
    requires ParseArm(ts) == Ok(s, rest)
    ensures ts == used + rest && SpellsArm(used, s, Peek(rest))
    decreases |ts|, 4
  {
    hide SpellsS, SpellsStmts, SpellsArm, ParseStmt, ParseStmts, ParseArm;
    ArmReads(ts, s, rest);
    var more: seq<Lex>;
    if ts[0] == Arrow {
      more := StmtSpelled(Rest(ts), s, rest);
    } else {
      more := StmtsSpelled(Rest(ts), s.body, rest);
    }
    used := [ts[0]] + more;
    IsArm(ts[0], more, s, Peek(rest));
  }

  lemma IsArm(t: Lex, more: seq<Lex>, s: Stmt, next: Lex)
    requires (t == Arrow && SpellsS(more, s, next)) || (t == OBrace && s.Block? && SpellsStmts(more, s.body))
    ensures SpellsArm([t] + more, s, next)
  {
    hide SpellsS, SpellsStmts;
    assert ([t] + more)[1..] == more;
  }

  lemma {:induction false} CondSpelled(ts: seq<Lex>, s: Stmt, rest: seq<Lex>) returns (used: seq<Lex>)
    requires ParseConditional(ts) == Ok(s, rest)
    ensures ts == used + rest && s.If? && SpellsCond(used, s.condition, s.thenCase, s.elseCase, Peek(rest))
    decreases |ts|, 5
  {
    hide Spells, SpellsCases, ParseExpr, ParseArm;
    var cond := ParseExpr(ts, LOWEST);
    var test := ExprSpelled(ts, LOWEST, cond.value, cond.rest);
    var cases := CasesSpelled(ts, cond.value, cond.rest, s, rest);
    FirstToken(test, cond.value, ASSIGN, true);
    CasesStart(cases, s.thenCase, s.elseCase, Peek(rest));
    used := test + cases;
    assert used[..|test|] == test && used[|test|..] == cases;
    assert CondAt(used, |test|, s.condition, s.thenCase, s.elseCase, Peek(rest));
  }

  lemma CasesReads(ts: seq<Lex>, c: Expr, r: seq<Lex>, s: Stmt, rest: seq<Lex>)
    requires ParseConditional(ts) == Ok(s, rest) && ParseExpr(ts, LOWEST) == Ok(c, r)
    ensures var a := ParseArm(r);
            && a.Ok? && s.If? && s.condition == c && s.thenCase == a.value
            && if Peek(a.rest) != ElseTok then s.elseCase == None && rest == a.rest
               else s.elseCase.Some? && ParseCase(Rest(a.rest)) == Ok(s.elseCase.value, rest)
  {
    hide ParseExpr, ParseArm, ParseCase;
  }

  lemma {:induction false} CasesSpelled(ts: seq<Lex>, c: Expr, r: seq<Lex>, s: Stmt, rest: seq<Lex>)
      returns (used: seq<Lex>)
    requires ParseConditional(ts) == Ok(s, rest) && ParseExpr(ts, LOWEST) == Ok(c, r) && |r| < |ts|
    ensures r == used + rest && s.If? && s.condition == c && SpellsCases(used, s.thenCase, s.elseCase, Peek(rest))
    decreases |ts|, 4
  {
    hide SpellsArm, SpellsElse, ParseExpr, ParseArm, ParseConditional, ParseCase;
    CasesReads(ts, c, r, s, rest);
    var a := ParseArm(r);
    var arm := ArmSpelled(r, a.value, a.rest);
    var r1 := a.rest;
    if Peek(r1) != ElseTok {
      used := arm;
    } else {
      hide SpellsCases;
      var more := ElseSpelled(Rest(r1), s.elseCase.value, rest);
      used := arm + ([ElseTok] + more);
      ElseParts(arm, more, s.thenCase, s.elseCase.value, Peek(rest), used);
      assert r1 == [ElseTok] + Rest(r1);
    }
  }

  lemma ElseParts(arm: seq<Lex>, more: seq<Lex>, a: Stmt, b: Stmt, next: Lex, used: seq<Lex>)
    requires SpellsArm(arm, a, ElseTok) && SpellsElse(more, b, next) && used == arm + ([ElseTok] + more)
    ensures SpellsCases(used, a, Some(b), next)
  {
    hide SpellsArm, SpellsElse;
    ArmStart(arm, a, ElseTok);
    assert used[..|arm|] == arm && used[|arm| + 1..] == more;
    assert ElseAt(used, |arm|, a, b, next);
  }

  lemma {:induction false} ElseSpelled(ts: seq<Lex>, s: Stmt, rest: seq<Lex>) returns (used: seq<Lex>)
    requires ParseCase(ts) == Ok(s, rest)
    ensures ts == used + rest && SpellsElse(used, s, Peek(rest))
    decreases |ts|, 6
  {
    hide SpellsArm, SpellsCond, ParseArm, ParseConditional;
    if Peek(ts) == IfTok {
      var more := CondSpelled(Rest(ts), s, rest);
      used := [IfTok] + more;
      assert used[1..] == more;
    } else {
      used := ArmSpelled(ts, s, rest);
    }
  }

  lemma ProgramReads(ts: seq<Lex>, body: seq<Stmt>, rest: seq<Lex>)
    requires ParseProgram(ts) == Ok(body, rest)
    ensures if Peek(ts) == Eof then body == [] && rest == ts
            else
              var first := ParseStmt(ts);
              && first.Ok? && body != [] && body[0] == first.value && ParseProgram(first.rest) == Ok(body[1..], rest)
  {
    hide ParseStmt;
  }

  lemma {:induction false} ProgramSpelled(ts: seq<Lex>, body: seq<Stmt>, rest: seq<Lex>) returns (used: seq<Lex>)
    requires ParseProgram(ts) == Ok(body, rest)
    ensures ts == used + rest && SpellsProgram(used, body) && Peek(rest) == Eof
    decreases |ts|
  {
    hide SpellsS, ParseStmt, ParseProgram;
    ProgramReads(ts, body, rest);
    if Peek(ts) == Eof {
      used := [];
    } else {
      var r := ParseStmt(ts).rest;
      var first := StmtSpelled(ts, body[0], r);
      var more := ProgramSpelled(r, body[1..], rest);
      used := first + more;
      assert used[..|first|] == first && used[|first|..] == more;
      StmtStart(first, body[0], Peek(r));
      assert Peek(more) == Peek(r) by {
        if more == [] {
          assert r == rest;
        }
      }
    }
  }

  // ----- the parser is the grammar -----

  /** parse_expr returns a tree exactly when the tokens it took spell that tree at its layer and the next token
      cannot go on. */
  lemma {:induction false} PrattParses(ts: seq<Lex>, p: nat, e: Expr, rest: seq<Lex>)
    requires p <= PREFIX
    ensures ParseExpr(ts, p) == Ok(e, rest) <==>
      exists used :: ts == used + rest && Spells(used, e, Start(p), Last(rest)) && Precedence(Peek(rest)) <= p
  {
    hide Spells, ParseExpr;
    if ParseExpr(ts, p) == Ok(e, rest) {
      var used := ExprSpelled(ts, p, e, rest);
    }
    forall used | ts == used + rest && Spells(used, e, Start(p), Last(rest)) && Precedence(Peek(rest)) <= p
      ensures ParseExpr(ts, p) == Ok(e, rest)
    {
      ReadBack(used, e, Start(p), Last(rest), rest, p);
      LoopEnds(e, rest, p);
    }
  }

  lemma LoopEnds(e: Expr, rest: seq<Lex>, p: nat)
    requires Precedence(Peek(rest)) <= p
    ensures ParseLoop(Sure(e), rest, p) == Ok(e, rest)
  {
  }

  /** parse_stmt returns a statement exactly when the tokens it took spell it before the next token. */
  lemma {:induction false} StmtParses(ts: seq<Lex>, s: Stmt, rest: seq<Lex>)
    ensures ParseStmt(ts) == Ok(s, rest) <==> exists used :: ts == used + rest && SpellsS(used, s, Peek(rest))
  {
    hide SpellsS, ParseStmt;
    if ParseStmt(ts) == Ok(s, rest) {
      var used := StmtSpelled(ts, s, rest);
    }
    forall used | ts == used + rest && SpellsS(used, s, Peek(rest)) ensures ParseStmt(ts) == Ok(s, rest) {
      ReadStmt(used, s, rest);
    }
  }

  /** A file is parsed exactly when its tokens up to the end spell its statements. */
  lemma {:induction false} ProgramParses(ts: seq<Lex>, program: seq<Stmt>, rest: seq<Lex>)
    ensures ParseProgram(ts) == Ok(program, rest) <==>
      Peek(rest) == Eof && exists used :: ts == used + rest && SpellsProgram(used, program)
  {
    hide SpellsProgram, ParseProgram;
    if ParseProgram(ts) == Ok(program, rest) {
      var used := ProgramSpelled(ts, program, rest);
    }
    forall used | ts == used + rest && SpellsProgram(used, program) && Peek(rest) == Eof
        ensures ParseProgram(ts) == Ok(program, rest) {
      ReadProgram(used, program, rest);
    }
  }

  // No token sequence spells two trees.
  lemma {:induction false} SpellsOne(ts: seq<Lex>, e: Expr, e': Expr)
    requires Spells(ts, e, ASSIGN, true) && Spells(ts, e', ASSIGN, true)
    ensures e == e'
  {
    hide Spells, ParseExpr;
    assert ts + [] == ts;
    ReadWhole(ts, e, []);
    ReadWhole(ts, e', []);
  }

  // No token sequence spells two programs.
  lemma {:induction false} ProgramOne(ts: seq<Lex>, program: seq<Stmt>, program': seq<Stmt>)
    requires SpellsProgram(ts, program) && SpellsProgram(ts, program')
    ensures program == program'
  {
    hide SpellsProgram, ParseProgram;
    assert ts + [] == ts;
    ReadProgram(ts, program, []);
    ReadProgram(ts, program', []);
  }

  // Operators of one layer, `=` and `**` among them, group to the left.
  lemma {:induction false} GroupsLeft(x: seq<Lex>, y: seq<Lex>, z: seq<Lex>, a: Expr, b: Expr, c: Expr, o1: Lex,
      o2: Lex)
    requires (o1.OpTok? || o1.AssignTok?) && (o2.OpTok? || o2.AssignTok?) && Precedence(o1) == Precedence(o2)
    requires Spells(x, a, Precedence(o1), false) && Spells(y, b, Precedence(o1) + 1, false)
        && Spells(z, c, Precedence(o1) + 1, true)
    ensures ParseExpr(x + ([o1] + y) + ([o2] + z), LOWEST) == Ok(Applied(o2, Applied(o1, a, b), c), [])
  {
    hide Spells, Bare, ParseExpr;
    var q, l := Precedence(o1), x + ([o1] + y);
    var whole := l + ([o2] + z);
    BareInfix(x, o1, y, a, b, q, false, l);
    IsBare(l, Applied(o1, a, b), q, false);
    BareInfix(l, o2, z, Applied(o1, a, b), c, q, true, whole);
    IsBare(whole, Applied(o2, Applied(o1, a, b), c), ASSIGN, true);
    ReadWhole(whole, Applied(o2, Applied(o1, a, b), c), []);
    assert whole + [] == whole;
  }
}

/**
 Lexical addressing (compiler_find_local, compiler_add_upvalue and compiler_find_upvalue in src/compiler.c).
 A function takes each variable of the functions around it through a descriptor, and the descriptors lead to
 the cell that the innermost enclosing declaration of the name has.
 */
module Lexical {
  import opened Syntax
  import opened Values
  import opened Upvalues

  const UPVALUES_MAX: nat := 255

  datatype Local = Local(name: Name, captured: bool)

  // A function being compiled.
  datatype Record = Record(locals: seq<Local>, upvalues: seq<Descriptor>)

  // A chain of functions being compiled, the innermost first; the last is the top level of a file.
  type Chain = seq<Record>

  // TooMany: the compiler ends the process.
  datatype Lookup = Found(index: nat) | Missing | TooMany

  function LocalIndex(locals: seq<Local>, x: Name): (r: Option<nat>)
    ensures r.Some? ==> r.value < |locals| && locals[r.value].name == x
    ensures r.Some? ==> forall i | 0 <= i < r.value :: locals[i].name != x
    ensures r.None? ==> forall i | 0 <= i < |locals| :: locals[i].name != x
  {
    if locals == [] then None
    else if locals[0].name == x then Some(0)
    else match LocalIndex(locals[1..], x)
         case Some(i) => Some(i + 1)
         case None => None
  }

  function DescriptorIndex(ups: seq<Descriptor>, d: Descriptor): (r: nat)
    ensures r <= |ups|
    ensures r < |ups| ==> ups[r] == d
    ensures r == |ups| ==> d !in ups
  {
    if ups == [] || ups[0] == d then 0 else 1 + DescriptorIndex(ups[1..], d)
  }

  function WithUpvalue(ups: seq<Descriptor>, d: Descriptor): (r: (Lookup, seq<Descriptor>))
    ensures ups <= r.1
    ensures r.0.Found? ==> r.0.index < |r.1| && r.1[r.0.index] == d
  {
    if |ups| >= UPVALUES_MAX then (TooMany, ups)
    else
      var i := DescriptorIndex(ups, d);
      if i < |ups| then (Found(i), ups) else (Found(i), ups + [d])
  }

  // compiler_find_upvalue for a name that is not a local of the innermost function.
  function Resolve(chain: Chain, x: Name): (r: (Lookup, Chain))
    ensures |r.1| == |chain|
    decreases |chain|
  {
    if |chain| < 2 then (Missing, chain)
    else
      match LocalIndex(chain[1].locals, x)
      case Some(i) =>
        var parent := chain[1].(locals := chain[1].locals[i := Local(chain[1].locals[i].name, true)]);
        var (found, ups) := WithUpvalue(chain[0].upvalues, Descriptor(true, i));
        (found, [chain[0].(upvalues := ups), parent] + chain[2..])
      case None =>
        var (outer, rest) := Resolve(chain[1..], x);
        match outer
        case Found(i) =>
          var (found, ups) := WithUpvalue(chain[0].upvalues, Descriptor(false, i));
          (found, [chain[0].(upvalues := ups)] + rest)
        case _ => (outer, [chain[0]] + rest)
  }

  // ----- what descriptors mean at run time -----

  // The cells of the locals of each function of the chain.
  type Cells = seq<seq<nat>>

  // The descriptors of the innermost function name something its parent has.
  predicate Linked(chain: Chain)
    requires chain != []
  {
    forall d | d in chain[0].upvalues ::
      |chain| >= 2 && if d.isLocal then d.index < |chain[1].locals| else d.index < |chain[1].upvalues|
  }

  predicate WellFormed(chain: Chain) {
    chain == [] || (Linked(chain) && WellFormed(chain[1..]))
  }

  predicate Fits(chain: Chain, env: Cells) {
    |env| == |chain| && (chain == [] || (|env[0]| == |chain[0].locals| && Fits(chain[1..], env[1..])))
  }

  /** The cell behind upvalue i of the innermost function, as MAKE_CLOSURE passes it on from function to
      function (Upvalues.Machine.MakeClosure). */
  function CellOf(chain: Chain, env: Cells, i: nat): nat
    requires WellFormed(chain) && Fits(chain, env) && chain != [] && i < |chain[0].upvalues|
  {
    var d := chain[0].upvalues[i];
    assert d in chain[0].upvalues && Fits(chain[1..], env[1..]);
    if d.isLocal then env[1..][0][d.index] else CellOf(chain[1..], env[1..], d.index)
  }

  /** The cell that lexical scope gives a name that the innermost function uses and does not declare: that of
      the first function outwards that declares it. */
  function ScopeCell(chain: Chain, env: Cells, x: Name): Option<nat>
    requires Fits(chain, env)
  {
    if |chain| < 2 then None
    else
      assert Fits(chain[1..], env[1..]);
      match LocalIndex(chain[1].locals, x)
      case Some(i) => Some(env[1..][0][i])
      case None => ScopeCell(chain[1..], env[1..], x)
  }

  // ----- resolution is right, and keeps what was there -----

  // The same function, perhaps with more upvalues and more locals marked as captured.
  predicate Grew(a: Record, b: Record) {
    && a.upvalues <= b.upvalues && |a.locals| == |b.locals|
    && forall i | 0 <= i < |a.locals| :: a.locals[i].name == b.locals[i].name
        && (a.locals[i].captured ==> b.locals[i].captured)
  }

  predicate Extends(a: Chain, b: Chain) {
    |a| == |b| && (a == [] || (Grew(a[0], b[0]) && Extends(a[1..], b[1..])))
  }

  // The same functions later on: the innermost may have declared locals since, and dropped some.
  predicate Later(a: Chain, b: Chain) {
    a != [] && |a| == |b| && a[0].upvalues <= b[0].upvalues && Extends(a[1..], b[1..])
  }

  lemma {:induction false} ExtendsSelf(a: Chain)
    ensures Extends(a, a)
  {
    if a != [] {
      ExtendsSelf(a[1..]);
    }
  }

  lemma {:induction false} ExtendsFits(a: Chain, b: Chain, env: Cells)
    requires Extends(a, b) && Fits(a, env)
    ensures Fits(b, env)
  {
    if a != [] {
      ExtendsFits(a[1..], b[1..], env[1..]);
    }
  }

  // An index given out earlier still leads to the same cell, whatever became of the locals of the innermost function.
  lemma {:induction false} CellStable(a: Chain, b: Chain, envA: Cells, envB: Cells, i: nat)
    requires Later(a, b) && WellFormed(a) && WellFormed(b) && Fits(a, envA) && Fits(b, envB) && envA[1..] == envB[1..]
    requires i < |a[0].upvalues|
    ensures CellOf(b, envB, i) == CellOf(a, envA, i)
    decreases |a|
  {
    var d := a[0].upvalues[i];
    assert d in a[0].upvalues && b[0].upvalues[i] == d;
    if !d.isLocal {
      CellStable(a[1..], b[1..], envA[1..], envB[1..], d.index);
    }
  }

  // The chain after resolution, seen as its head and its tail.
  lemma {:induction false} ResolveParts(chain: Chain, x: Name)
    requires |chain| >= 2
    ensures var r := Resolve(chain, x).1;
            match LocalIndex(chain[1].locals, x)
            case Some(i) =>
              && r[0] == chain[0].(upvalues := WithUpvalue(chain[0].upvalues, Descriptor(true, i)).1)
              && r[1..] == [chain[1].(locals := chain[1].locals[i := Local(chain[1].locals[i].name, true)])]
                  + chain[1..][1..]
            case None =>
              var (outer, rest) := Resolve(chain[1..], x);
              && r[1..] == rest
              && r[0] == if outer.Found? then chain[0].(upvalues := WithUpvalue(chain[0].upvalues,
                  Descriptor(false, outer.index)).1) else chain[0]
  {
    assert chain[1..][1..] == chain[2..];
  }

  lemma {:induction false} ResolveExtends(chain: Chain, x: Name)
    ensures Extends(chain, Resolve(chain, x).1)
    decreases |chain|
  {
    if |chain| < 2 {
      ExtendsSelf(chain);
    } else {
      ResolveParts(chain, x);
      match LocalIndex(chain[1].locals, x)
      case Some(i) => ExtendsSelf(chain[1..][1..]);
      case None => ResolveExtends(chain[1..], x);
    }
  }

  lemma {:induction false} ResolveWellFormed(chain: Chain, x: Name)
    requires WellFormed(chain)
    ensures var (found, r) := Resolve(chain, x);
            WellFormed(r) && (found.Found? ==> |chain| >= 2 && found.index < |r[0].upvalues|)
    decreases |chain|
  {
    if |chain| >= 2 {
      var (found, r) := Resolve(chain, x);
      ResolveParts(chain, x);
      match LocalIndex(chain[1].locals, x)
      case Some(i) =>
        assert Linked(chain[1..]) && Linked(r[1..]);
        assert Linked(r);
      case None =>
        ResolveWellFormed(chain[1..], x);
        ResolveExtends(chain[1..], x);
        assert Linked(r);
    }
  }

  /** Lexical addressing is right: a name is found exactly when a function around declares it (and the table
      of upvalues does not overflow), and the index found leads to the cell of the innermost declaration. */
  lemma {:induction false} ResolveFindsScope(chain: Chain, env: Cells, x: Name)
    requires WellFormed(chain) && Fits(chain, env)
    ensures var (found, r) := Resolve(chain, x);
            && WellFormed(r) && Extends(chain, r) && Fits(r, env)
            && (found.Missing? <==> ScopeCell(chain, env, x) == None)
            && (found.Found? ==>
                chain != [] && found.index < |r[0].upvalues|
                && ScopeCell(chain, env, x) == Some(CellOf(r, env, found.index)))
    decreases |chain|
  {
    var (found, r) := Resolve(chain, x);
    ResolveWellFormed(chain, x);
    ResolveExtends(chain, x);
    ExtendsFits(chain, r, env);
    if |chain| >= 2 {
      ResolveParts(chain, x);
      match LocalIndex(chain[1].locals, x)
      case Some(i) =>
      case None => ResolveFindsScope(chain[1..], env[1..], x);
    }
  }

  // ----- two upvalues never share a variable -----

  function AllCells(env: Cells): set<nat> {
    if env == [] then {} else (set c | c in env[0]) + AllCells(env[1..])
  }

  // Every local has a cell of its own.
  predicate Apart(env: Cells) {
    env == [] || (
      && (forall i, j | 0 <= i < j < |env[0]| :: env[0][i] != env[0][j])
      && (set c | c in env[0]) !! AllCells(env[1..]) && Apart(env[1..]))
  }

  predicate NoRepeats(chain: Chain) {
    chain == [] || ((forall i, j | 0 <= i < j < |chain[0].upvalues| :: chain[0].upvalues[i] != chain[0].upvalues[j])
        && NoRepeats(chain[1..]))
  }

  lemma {:induction false} ResolveNoRepeats(chain: Chain, x: Name)
    requires NoRepeats(chain)
    ensures NoRepeats(Resolve(chain, x).1)
    decreases |chain|
  {
    if |chain| >= 2 {
      var r := Resolve(chain, x).1;
      ResolveParts(chain, x);
      match LocalIndex(chain[1].locals, x)
      case Some(i) => assert r[1..][1..] == chain[1..][1..] && r[1..][0].upvalues == chain[1..][0].upvalues;
      case None => ResolveNoRepeats(chain[1..], x);
    }
  }

  lemma {:induction false} CellInScope(chain: Chain, env: Cells, i: nat)
    requires WellFormed(chain) && Fits(chain, env) && chain != [] && i < |chain[0].upvalues|
    ensures CellOf(chain, env, i) in AllCells(env[1..])
    ensures !chain[0].upvalues[i].isLocal ==> |env| >= 2 && CellOf(chain, env, i) in AllCells(env[1..][1..])
  {
    var d := chain[0].upvalues[i];
    assert d in chain[0].upvalues;
    if !d.isLocal {
      CellInScope(chain[1..], env[1..], d.index);
    }
  }

  /** Deduplication merges only descriptors of the same variable: different upvalues of a function are
      different variables. */
  lemma {:induction false} UpvaluesDiffer(chain: Chain, env: Cells, i: nat, j: nat)
    requires WellFormed(chain) && Fits(chain, env) && NoRepeats(chain) && Apart(env) && chain != []
    requires i < |chain[0].upvalues| && j < |chain[0].upvalues| && i != j
    ensures CellOf(chain, env, i) != CellOf(chain, env, j)
  {
    var d, e := chain[0].upvalues[i], chain[0].upvalues[j];
    assert d in chain[0].upvalues && e in chain[0].upvalues && d != e;
    if !d.isLocal && !e.isLocal {
      UpvaluesDiffer(chain[1..], env[1..], d.index, e.index);
    } else if d.isLocal != e.isLocal {
      CellInScope(chain, env, i);
      CellInScope(chain, env, j);
      assert env[1..][0][if d.isLocal then d.index else e.index] in env[1..][0];
    }
  }

  // ----- whole compilations -----

  // What compiling does to the functions around: a name is used, a local declared in the cell it will have, a
  // block left with n locals remaining, a function entered and left.
  datatype Event = Use(x: Name) | Declare(x: Name, cell: nat) | Drop(n: nat) | Enter(params: seq<Name>,
      args: seq<nat>) | Leave

  datatype Stage = Stage(chain: Chain, env: Cells)

  predicate Good(s: Stage) {
    s.chain != [] && WellFormed(s.chain) && NoRepeats(s.chain) && Fits(s.chain, s.env) && Apart(s.env)
  }

  // New locals have new cells; the innermost `depth` functions are not left.
  predicate Allowed(s: Stage, e: Event, depth: nat) {
    match e
    case Use(_) => true
    case Declare(_, cell) => cell !in AllCells(s.env)
    case Drop(_) => true
    case Enter(params, args) => |params| == |args| && Apart([args] + s.env)
    case Leave => |s.chain| > depth
  }

  function Parameters(params: seq<Name>): (r: seq<Local>)
    ensures |r| == |params|
  {
    seq(|params|, i requires 0 <= i < |params| => Local(params[i], false))
  }

  function Step(s: Stage, e: Event): Stage
    requires Good(s) && Allowed(s, e, 1)
  {
    var head := s.chain[0];
    match e
    case Use(x) => if LocalIndex(head.locals, x).Some? then s else s.(chain := Resolve(s.chain, x).1)
    case Declare(x, cell) =>
      Stage([head.(locals := head.locals + [Local(x, false)])] + s.chain[1..], [s.env[0] + [cell]] + s.env[1..])
    case Drop(n) =>
      if n < |head.locals| then Stage([head.(locals := head.locals[..n])] + s.chain[1..], [s.env[0][..n]] + s.env[1..])
          else s
    case Enter(params, args) => Stage([Record(Parameters(params), [])] + s.chain, [args] + s.env)
    case Leave => Stage(s.chain[1..], s.env[1..])
  }

  lemma {:induction false} ResolveEnv(chain: Chain, env: Cells, x: Name)
    requires WellFormed(chain) && Fits(chain, env) && NoRepeats(chain)
    ensures var r := Resolve(chain, x).1;
            WellFormed(r) && Fits(r, env) && NoRepeats(r) && Extends(chain, r)
  {
    ResolveFindsScope(chain, env, x);
    ResolveNoRepeats(chain, x);
  }

  // Every step keeps the records in order.
  lemma {:induction false} StepGood(s: Stage, e: Event)
    requires Good(s) && Allowed(s, e, 1)
    ensures Good(Step(s, e))
  {
    match e
    case Use(x) => ResolveEnv(s.chain, s.env, x);
    case Declare(x, cell) => HeadGood(s, s.chain[0].locals + [Local(x, false)], s.env[0] + [cell]);
    case Drop(n) =>
      if n < |s.chain[0].locals| {
        HeadGood(s, s.chain[0].locals[..n], s.env[0][..n]);
      }
    case Enter(params, args) =>
      var r := Step(s, e);
      assert r.chain[1..] == s.chain && r.env[1..] == s.env && Linked(r.chain);
    case Leave =>
  }

  // The locals of the innermost function matter to nothing else.
  lemma {:induction false} HeadGood(s: Stage, locals: seq<Local>, cells: seq<nat>)
    requires Good(s) && |locals| == |cells|
    requires forall c | c in cells :: c in s.env[0] || c !in AllCells(s.env)
    requires forall i, j | 0 <= i < j < |cells| :: cells[i] != cells[j]
    ensures Good(Stage([s.chain[0].(locals := locals)] + s.chain[1..], [cells] + s.env[1..]))
  {
    var chain, env := [s.chain[0].(locals := locals)] + s.chain[1..], [cells] + s.env[1..];
    assert chain[1..] == s.chain[1..] && env[1..] == s.env[1..];
    assert Linked(s.chain) && Linked(chain);
    forall c | c in cells ensures c !in AllCells(env[1..]) {
      assert c in s.env[0] ==> c in (set d | d in s.env[0]);
    }
  }

  predicate AllAllowed(s: Stage, es: seq<Event>, depth: nat)
    requires Good(s) && depth >= 1
    decreases |es|
  {
    es == [] || (Allowed(s, es[0], depth) && (StepGood(s, es[0]); AllAllowed(Step(s, es[0]), es[1..], depth)))
  }

  function Steps(s: Stage, es: seq<Event>, depth: nat): (r: Stage)
    requires Good(s) && depth >= 1 && AllAllowed(s, es, depth)
    ensures Good(r)
    decreases |es|
  {
    if es == [] then s else
      StepGood(s, es[0]);
      Steps(Step(s, es[0]), es[1..], depth)
  }

  // The outermost n functions of a stage.
  function Outer(s: Stage, n: nat): Stage
    requires 1 <= n <= |s.chain| == |s.env|
  {
    Stage(s.chain[|s.chain| - n..], s.env[|s.env| - n..])
  }

  lemma {:induction false} FitsLength(chain: Chain, env: Cells)
    requires Fits(chain, env)
    ensures |chain| == |env|
  {
  }

  lemma {:induction false} OuterGood(s: Stage, n: nat)
    requires Good(s) && 1 <= n <= |s.chain| == |s.env|
    ensures Good(Outer(s, n))
    decreases |s.chain|
  {
    if n == |s.chain| {
      assert Outer(s, n) == s;
    } else {
      var rest := Stage(s.chain[1..], s.env[1..]);
      OuterGood(rest, n);
      assert Outer(s, n) == Outer(rest, n);
    }
  }

  lemma {:induction false} ExtendsOuter(a: Chain, b: Chain, n: nat)
    requires Extends(a, b) && n <= |a| == |b|
    ensures Extends(a[|a| - n..], b[|b| - n..])
    decreases |a|
  {
    if n == |a| {
      assert a[0..] == a && b[0..] == b;
    } else {
      ExtendsOuter(a[1..], b[1..], n);
      assert a[1..][|a| - 1 - n..] == a[|a| - n..] && b[1..][|b| - 1 - n..] == b[|b| - n..];
    }
  }

  lemma {:induction false} ExtendsTwice(a: Chain, b: Chain, c: Chain)
    requires Extends(a, b) && Extends(b, c)
    ensures Extends(a, c)
    decreases |a|
  {
    if a != [] {
      ExtendsTwice(a[1..], b[1..], c[1..]);
    }
  }

  // A step keeps the functions around, except for the locals of the innermost.
  lemma {:induction false} StepLater(s: Stage, e: Event, n: nat)
    requires Good(s) && 1 <= n <= |s.chain| == |s.env| && Allowed(s, e, n)
    ensures var r := Step(s, e);
            && n <= |r.chain| == |r.env| && Later(Outer(s, n).chain, Outer(r, n).chain)
            && Outer(r, n).env[1..] == Outer(s, n).env[1..]
  {
    hide NoRepeats, Apart, WellFormed, Fits, Extends;
    var r := Step(s, e);
    match e
    case Use(x) => UseLater(s, x, r, n);
    case Declare(_, _) => HeadOnly(s, r, n);
    case Drop(m) =>
      if m < |s.chain[0].locals| {
        HeadOnly(s, r, n);
      } else {
        HeadOnly(s, s, n);
      }
    case Enter(_, _) =>
      assert Outer(r, n) == Outer(s, n);
      HeadOnly(s, s, n);
    case Leave =>
      assert Outer(r, n) == Outer(s, n);
      HeadOnly(s, s, n);
  }

  lemma {:induction false} UseLater(s: Stage, x: Name, r: Stage, n: nat)
    requires Good(s) && 1 <= n <= |s.chain| == |s.env| && r == Step(s, Use(x))
    ensures n <= |r.chain| == |r.env| && Later(Outer(s, n).chain, Outer(r, n).chain) && r.env == s.env
  {
    hide NoRepeats, Apart, WellFormed, Fits;
    ResolveEnv(s.chain, s.env, x);
    ExtendsSelf(s.chain);
    ExtendsOuter(s.chain, r.chain, n);
  }

  lemma {:induction false} HeadOnly(s: Stage, r: Stage, n: nat)
    requires 1 <= n <= |s.chain| == |s.env| == |r.chain| == |r.env|
    requires s.chain[1..] == r.chain[1..] && s.env[1..] == r.env[1..] && s.chain[0].upvalues == r.chain[0].upvalues
    ensures Later(Outer(s, n).chain, Outer(r, n).chain) && Outer(r, n).env[1..] == Outer(s, n).env[1..]
  {
    var a, b := Outer(s, n), Outer(r, n);
    ExtendsSelf(a.chain[1..]);
    if n == |s.chain| {
      assert a.chain[1..] == s.chain[1..] && b.chain[1..] == r.chain[1..];
      assert a.env[1..] == s.env[1..] && b.env[1..] == r.env[1..];
    } else {
      assert a.chain == s.chain[1..][|s.chain| - 1 - n..] && b.chain == r.chain[1..][|s.chain| - 1 - n..];
      assert a.env == s.env[1..][|s.chain| - 1 - n..] && b.env == r.env[1..][|s.chain| - 1 - n..];
    }
  }

  lemma {:induction false} LaterTwice(a: Chain, b: Chain, c: Chain)
    requires Later(a, b) && Later(b, c)
    ensures Later(a, c)
  {
    ExtendsTwice(a[1..], b[1..], c[1..]);
  }

  lemma {:induction false} StepsLater(s: Stage, es: seq<Event>, n: nat)
    requires Good(s) && 1 <= n <= |s.chain| == |s.env| && AllAllowed(s, es, n)
    ensures var r := Steps(s, es, n);
            && n <= |r.chain| == |r.env| && Later(Outer(s, n).chain, Outer(r, n).chain)
            && Outer(r, n).env[1..] == Outer(s, n).env[1..]
    decreases |es|
  {
    if es == [] {
      ExtendsSelf(Outer(s, n).chain[1..]);
    } else {
      var t := Step(s, es[0]);
      StepGood(s, es[0]);
      StepLater(s, es[0], n);
      StepsLater(t, es[1..], n);
      LaterTwice(Outer(s, n).chain, Outer(t, n).chain, Outer(Steps(s, es, n), n).chain);
    }
  }

  function Used(s: Stage, x: Name): (r: Stage)
    requires Good(s)
    ensures Good(r) && |r.chain| == |s.chain|
  {
    StepGood(s, Use(x));
    Step(s, Use(x))
  }

  /** Lexical addressing is right for the whole of a function: the index that a use of a captured name got still
      leads to the cell of the innermost declaration around it after everything compiled later inside the
      function, whatever blocks and functions were opened and closed meanwhile. */
  lemma {:induction false} FoundStays(s: Stage, x: Name, es: seq<Event>)
    requires Good(s) && LocalIndex(s.chain[0].locals, x).None? && Resolve(s.chain, x).0.Found?
    requires AllAllowed(Used(s, x), es, |s.chain|)
    ensures var i, r := Resolve(s.chain, x).0.index, Steps(Used(s, x), es, |s.chain|);
            && |s.chain| <= |r.chain| == |r.env|
            && var end := Outer(r, |s.chain|);
            && Good(end) && i < |end.chain[0].upvalues|
            && ScopeCell(s.chain, s.env, x) == Some(CellOf(end.chain, end.env, i))
  {
    var n, i, t := |s.chain|, Resolve(s.chain, x).0.index, Used(s, x);
    FitsLength(t.chain, t.env);
    StepsLater(t, es, n);
    var r := Steps(t, es, n);
    OuterGood(r, n);
    assert Outer(t, n) == t;
    ResolveFindsScope(s.chain, s.env, x);
    CellStable(t.chain, Outer(r, n).chain, t.env, Outer(r, n).env, i);
  }

  /** What the descriptors of a function mean when its closure is made: OP_MAKE_CLOSURE, run in a frame whose slots
      are the cells of the enclosing function and in a closure that has that function's upvalues, gives each
      upvalue the cell that lexical scope gives it. The last local of the enclosing function may be the one that the
      closure is the first value of: its cell is that of the slot that the closure is pushed to. */
  method CloseOver(machine: Machine, closure: Value, ghost chain: Chain, ghost env: Cells,
                   descriptors: seq<Descriptor>, base: nat, captured: seq<ObjUpvalue>, ghost cell: nat)
    returns (upvalues: seq<ObjUpvalue>)
    requires machine.Valid() && machine.sp < machine.stack.Length && cell !in machine.store
    requires |chain| >= 2 && WellFormed(chain) && Fits(chain, env) && descriptors == chain[0].upvalues
    requires InFrame(machine.slots + [cell], base, env[1])
    requires WellFormed(chain[1..]) && Fits(chain[1..], env[1..]) && |captured| >= |chain[1].upvalues|
    requires (forall u | u in captured :: u in machine.cells)
        && forall j | 0 <= j < |chain[1].upvalues| ::
             captured[j] in machine.cells && machine.cells[captured[j]] == CellOf(chain[1..], env[1..], j)
    modifies machine`openUpvalues, machine`open, machine`at, machine`cells, machine`slots, machine`store, machine`sp,
        machine.stack, (set v | v in machine.open)
    ensures machine.Valid() && Grows(old(machine.cells), machine.cells) && |upvalues| == |chain[0].upvalues|
    ensures machine.slots == old(machine.slots) + [cell] && machine.store == old(machine.store)[cell := closure]
    ensures forall i | 0 <= i < |upvalues| ::
              upvalues[i] in machine.cells && machine.cells[upvalues[i]] == CellOf(chain, env, i)
  {
    hide SlotsShow, ClosedShow, OneEach, Lists, Descending, OpenShow, WellFormed, Fits, Grows, Gives, Within, InFrame;
    LinkedWithin(chain, env, machine.slots + [cell], base, |captured|);
    upvalues := machine.MakeClosure(closure, descriptors, base, captured, cell);
    ScopeGiven(chain, env, base, machine.slots, captured, old(machine.cells), machine.cells, upvalues);
  }

  lemma LinkedWithin(chain: Chain, env: Cells, slots: seq<nat>, base: nat, captured: nat)
    requires |chain| >= 2 && WellFormed(chain) && Fits(chain, env) && InFrame(slots, base, env[1])
        && captured >= |chain[1].upvalues|
    ensures Within(chain[0].upvalues, base, |slots|, captured)
  {
    assert |env[1]| == |chain[1..][0].locals| && Linked(chain);
  }

  lemma {:induction false} ScopeGiven(chain: Chain, env: Cells, base: nat, slots: seq<nat>, captured: seq<ObjUpvalue>,
      before: map<ObjUpvalue, nat>, after: map<ObjUpvalue, nat>, upvalues: seq<ObjUpvalue>)
    requires |chain| >= 2 && WellFormed(chain) && Fits(chain, env) && InFrame(slots, base, env[1])
    requires WellFormed(chain[1..]) && Fits(chain[1..], env[1..]) && |captured| >= |chain[1].upvalues|
    requires forall j | 0 <= j < |chain[1].upvalues| ::
               captured[j] in before && before[captured[j]] == CellOf(chain[1..], env[1..], j)
    requires Gives(chain[0].upvalues, base, slots, captured, before, after, upvalues)
    ensures |upvalues| == |chain[0].upvalues|
    ensures forall i | 0 <= i < |upvalues| :: upvalues[i] in after && after[upvalues[i]] == CellOf(chain, env, i)
  {
    assert |env[1]| == |chain[1..][0].locals| && Linked(chain);
    hide WellFormed, Fits;
    forall i | 0 <= i < |upvalues| ensures upvalues[i] in after && after[upvalues[i]] == CellOf(chain, env, i) {
      var d := chain[0].upvalues[i];
      assert d in chain[0].upvalues;
      assert GivesOne(d, base, slots, captured, before, after, upvalues[i]);
      if d.isLocal {
        assert slots[base + d.index] == slots[base..base + |env[1]|][d.index];
      }
    }
  }

  // These are the cells of the frame's first slots.
  predicate InFrame(slots: seq<nat>, base: nat, cells: seq<nat>) {
    base + |cells| <= |slots| && slots[base..base + |cells|] == cells
  }

  // `f = fn { f }` inside a function: the new local is declared before its value is compiled, and the closure gets
  // the cell of its own slot.
  method CloseOverItself(machine: Machine, closure: Value, f: Name, base: nat, ghost cell: nat)
      returns (upvalues: seq<ObjUpvalue>)
    requires machine.Valid() && machine.sp == base < machine.stack.Length && cell !in machine.store
    modifies machine`openUpvalues, machine`open, machine`at, machine`cells, machine`slots, machine`store, machine`sp,
        machine.stack, (set v | v in machine.open)
    ensures machine.Valid() && machine.store == old(machine.store)[cell := closure]
    ensures var (found, chain) := Resolve([Record([], []), Record([Local(f, false)], [])], f);
            && found == Found(0) && chain[0].upvalues == [Descriptor(true, 0)]
            && |upvalues| == 1 && upvalues[0] in machine.cells && machine.cells[upvalues[0]] == cell
  {
    hide Resolve, WellFormed, Fits, CellOf;
    ghost var before := [Record([], []), Record([Local(f, false)], [])];
    ghost var env: Cells, chain := [[], [cell]], Resolve(before, f).1;
    OwnName(f, before, env, cell);
    upvalues := CloseOver(machine, closure, chain, env, [Descriptor(true, 0)], base, [], cell);
  }

  lemma OwnName(f: Name, before: Chain, env: Cells, cell: nat)
    requires before == [Record([], []), Record([Local(f, false)], [])] && env == [[], [cell]]
    ensures var (found, chain) := Resolve(before, f);
            && found == Found(0) && |chain| == 2 && chain[0] == Record([], [Descriptor(true, 0)])
            && chain[1].upvalues == [] && WellFormed(chain) && WellFormed(chain[1..])
            && Fits(chain, env) && Fits(chain[1..], env[1..]) && CellOf(chain, env, 0) == cell
  {
    var (found, chain) := Resolve(before, f);
    assert chain[1..][1..] == [] && env[1..][1..] == [];
  }

  // ----- the compiler's own records -----

  class Scope {
    const parent: Scope?
    ghost const chain: seq<Scope> // this function and those around it
    var locals: seq<Local>
    var upvalues: seq<Descriptor>

    constructor (parent: Scope?)
      requires parent != null ==> parent.Nested()
      ensures this.parent == parent && chain == [this] + (if parent == null then [] else parent.chain)
      ensures Nested() && locals == [] && upvalues == []
    {
      this.parent := parent;
      chain := [this] + (if parent == null then [] else parent.chain);
      locals, upvalues := [], [];
    }

    ghost predicate Nested()
      decreases |chain|
    {
      && chain != [] && chain[0] == this && this !in chain[1..]
      && (if parent == null then chain[1..] == [] else chain[1..] == parent.chain && parent.Nested())
    }

    function Entry(): Record
      reads this
    {
      Record(locals, upvalues)
    }

    // compiler_find_local.
    method FindLocal(x: Name) returns (r: Option<nat>)
      ensures r == LocalIndex(locals, x)
    {
      var i := 0;
      while i < |locals|
        invariant i <= |locals| && LocalIndex(locals, x) ==
            (match LocalIndex(locals[i..], x) case Some(j) => Some(i + j) case None => None)
      {
        if locals[i].name == x {
          return Some(i);
        }
        assert locals[i..][1..] == locals[i + 1..];
        i := i + 1;
      }
      return None;
    }

    // compiler_add_upvalue.
    method AddUpvalue(index: nat, isLocal: bool) returns (r: Lookup)
      modifies this`upvalues
      ensures (r, upvalues) == WithUpvalue(old(upvalues), Descriptor(isLocal, index))
    {
      var d := Descriptor(isLocal, index);
      if |upvalues| >= UPVALUES_MAX {
        return TooMany;
      }
      var i := 0;
      while i < |upvalues|
        invariant i <= |upvalues| && DescriptorIndex(upvalues, d) == i + DescriptorIndex(upvalues[i..], d)
      {
        if upvalues[i] == d {
          return Found(i);
        }
        assert upvalues[i..][1..] == upvalues[i + 1..];
        i := i + 1;
      }
      upvalues := upvalues + [d];
      return Found(|upvalues| - 1);
    }

    // compiler_find_upvalue.
    method FindUpvalue(x: Name) returns (r: Lookup)
      requires Nested()
      modifies chain
      ensures (r, Records(chain)) == Resolve(old(Records(chain)), x)
      decreases |chain|
    {
      ghost var before := Records(chain);
      if parent == null {
        assert |chain| == 1;
        return Missing;
      }
      assert before[1] == parent.Entry() && before[1..] == Records(parent.chain);
      var found := parent.FindLocal(x);
      if found.Some? {
        var i := found.value;
        parent.locals := parent.locals[i := Local(parent.locals[i].name, true)];
        r := AddUpvalue(i, true);
        assert Records(chain) == [Entry(), parent.Entry()] + before[2..];
        return;
      }
      var outer := parent.FindUpvalue(x);
      r := outer;
      if outer.Found? {
        r := AddUpvalue(outer.index, false);
      }
      assert Records(chain) == [Entry()] + Records(parent.chain);
    }
  }

  function Records(chain: seq<Scope>): (r: Chain)
    reads chain
    ensures |r| == |chain| && forall i | 0 <= i < |chain| :: r[i] == chain[i].Entry()
  {
    if chain == [] then [] else [chain[0].Entry()] + Records(chain[1..])
  }
}

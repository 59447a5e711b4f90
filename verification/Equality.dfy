/**
 values_equal as a relation. Two values are alike if no finite look into them tells them apart; that is an
 equivalence, and wherever the comparison of the source gives an answer it is whether the values are alike.
 */
module Equality {
  import opened Syntax
  import opened Arithmetic
  import opened Values
  import opened Primitives

  // Nothing down to the depth n tells them apart. An array is alike itself, whatever it holds.
  ghost predicate AlikeTo(ar: Arith, heap: Heap, a: Value, b: Value, n: nat)
    decreases n
  {
    if a.Num? && b.Num? then ar.eq(a.d, b.d)
    else if a.Ref? && b.Ref? && a != b then
      n > 0 ==>
        && IsArray(heap, a) && IsArray(heap, b)
        && var xs, ys := heap[a.address].items, heap[b.address].items;
           |xs| == |ys| && forall i | 0 <= i < |xs| :: AlikeTo(ar, heap, xs[i], ys[i], n - 1)
    else a == b
  }

  ghost predicate Alike(ar: Arith, heap: Heap, a: Value, b: Value) {
    forall n: nat :: AlikeTo(ar, heap, a, b, n)
  }

  // ----- an equivalence -----

  ghost predicate EquivalenceOn(eq: (Double, Double) -> bool) {
    && (forall a :: eq(a, a)) && (forall a, b :: eq(a, b) ==> eq(b, a))
    && (forall a, b, c :: eq(a, b) && eq(b, c) ==> eq(a, c))
  }

  lemma {:induction false} AlikeToSymmetric(ar: Arith, heap: Heap, a: Value, b: Value, n: nat)
    requires EquivalenceOn(ar.eq) && AlikeTo(ar, heap, a, b, n)
    ensures AlikeTo(ar, heap, b, a, n)
    decreases n
  {
    if a.Ref? && b.Ref? && a != b && n > 0 {
      var xs, ys := heap[a.address].items, heap[b.address].items;
      forall i | 0 <= i < |xs| ensures AlikeTo(ar, heap, ys[i], xs[i], n - 1) {
        AlikeToSymmetric(ar, heap, xs[i], ys[i], n - 1);
      }
    }
  }

  lemma {:induction false} AlikeToReflexive(ar: Arith, heap: Heap, a: Value, n: nat)
    requires EquivalenceOn(ar.eq)
    ensures AlikeTo(ar, heap, a, a, n)
  {
  }

  lemma {:induction false} AlikeToTransitive(ar: Arith, heap: Heap, a: Value, b: Value, c: Value, n: nat)
    requires EquivalenceOn(ar.eq) && AlikeTo(ar, heap, a, b, n) && AlikeTo(ar, heap, b, c, n)
    ensures AlikeTo(ar, heap, a, c, n)
    decreases n
  {
    if a.Ref? && b.Ref? && c.Ref? && a != b && b != c && a != c && n > 0 {
      var xs, ys, zs := heap[a.address].items, heap[b.address].items, heap[c.address].items;
      forall i | 0 <= i < |xs| ensures AlikeTo(ar, heap, xs[i], zs[i], n - 1) {
        AlikeToTransitive(ar, heap, xs[i], ys[i], zs[i], n - 1);
      }
    }
  }

  /** Being alike is an equivalence where equality of doubles is one, as it is but for NaN. */
  lemma {:induction false} AlikeIsEquivalence(ar: Arith, heap: Heap, a: Value, b: Value, c: Value)
    requires EquivalenceOn(ar.eq)
    ensures Alike(ar, heap, a, a)
    ensures Alike(ar, heap, a, b) ==> Alike(ar, heap, b, a)
    ensures Alike(ar, heap, a, b) && Alike(ar, heap, b, c) ==> Alike(ar, heap, a, c)
  {
    hide AlikeTo;
    forall n: nat
      ensures AlikeTo(ar, heap, a, a, n)
      ensures AlikeTo(ar, heap, a, b, n) ==> AlikeTo(ar, heap, b, a, n)
      ensures AlikeTo(ar, heap, a, b, n) && AlikeTo(ar, heap, b, c, n) ==> AlikeTo(ar, heap, a, c, n)
    {
      AlikeToReflexive(ar, heap, a, n);
      if AlikeTo(ar, heap, a, b, n) {
        AlikeToSymmetric(ar, heap, a, b, n);
        if AlikeTo(ar, heap, b, c, n) {
          AlikeToTransitive(ar, heap, a, b, c, n);
        }
      }
    }
  }

  // ----- what the comparison finds -----

  // Items that are found equal one after another.
  lemma {:induction false} AllFound(ar: Arith, heap: Heap, xs: seq<Value>, ys: seq<Value>, unmet: set<(nat, nat)>)
    requires |xs| == |ys|
    ensures EqualAll(ar, heap, xs, ys, unmet) == Done(true) <==>
            forall i | 0 <= i < |xs| :: EqualFrom(ar, heap, xs[i], ys[i], unmet) == Done(true)
    ensures EqualAll(ar, heap, xs, ys, unmet) == Done(false) ==>
              exists i :: 0 <= i < |xs| && EqualFrom(ar, heap, xs[i], ys[i], unmet) == Done(false)
    decreases |xs|
  {
    hide EqualFrom;
    if xs != [] {
      AllFound(ar, heap, xs[1..], ys[1..], unmet);
      if EqualFrom(ar, heap, xs[0], ys[0], unmet) == Done(true) {
        assert forall i | 0 < i < |xs| :: xs[i] == xs[1..][i - 1] && ys[i] == ys[1..][i - 1];
      }
    }
  }

  // Two different arrays.
  lemma ArraysFrom(ar: Arith, heap: Heap, p: nat, q: nat, unmet: set<(nat, nat)>)
    requires p != q && EqualFrom(ar, heap, Ref(p), Ref(q), unmet).Done?
    requires p < |heap| && q < |heap| && heap[p].ArrayObj? && heap[q].ArrayObj?
    ensures var xs, ys := heap[p].items, heap[q].items;
            if |xs| != |ys| then EqualFrom(ar, heap, Ref(p), Ref(q), unmet) == Done(false)
            else
              (p, q) in unmet
              && EqualFrom(ar, heap, Ref(p), Ref(q), unmet) == EqualAll(ar, heap, xs, ys, unmet - {(p, q)})
  {
    hide EqualAll;
  }

  // Two values of which not both are arrays.
  lemma OthersFrom(ar: Arith, heap: Heap, a: Value, b: Value, unmet: set<(nat, nat)>, n: nat)
    requires EqualFrom(ar, heap, a, b, unmet).Done?
    requires a.Ref? && b.Ref? && a != b ==> !(IsArray(heap, a) && IsArray(heap, b)) && n > 0
    ensures EqualFrom(ar, heap, a, b, unmet) == Done(AlikeTo(ar, heap, a, b, n))
  {
    hide EqualAll;
  }

  lemma {:induction false} EqualFound(ar: Arith, heap: Heap, a: Value, b: Value, unmet: set<(nat, nat)>, n: nat)
    requires EqualFrom(ar, heap, a, b, unmet) == Done(true)
    ensures AlikeTo(ar, heap, a, b, n)
    decreases n
  {
    hide EqualFrom, EqualAll;
    if a.Ref? && b.Ref? && a != b {
      if n > 0 {
        if IsArray(heap, a) && IsArray(heap, b) {
          var xs, ys := heap[a.address].items, heap[b.address].items;
          ArraysFrom(ar, heap, a.address, b.address, unmet);
          var less := unmet - {(a.address, b.address)};
          AllFound(ar, heap, xs, ys, less);
          forall i | 0 <= i < |xs| ensures AlikeTo(ar, heap, xs[i], ys[i], n - 1) {
            EqualFound(ar, heap, xs[i], ys[i], less, n - 1);
          }
        } else {
          OthersFrom(ar, heap, a, b, unmet, n);
        }
      }
    } else {
      OthersFrom(ar, heap, a, b, unmet, n);
    }
  }

  lemma {:induction false} UnequalFound(ar: Arith, heap: Heap, a: Value, b: Value, unmet: set<(nat, nat)>)
      returns (n: nat)
    requires EqualFrom(ar, heap, a, b, unmet) == Done(false)
    ensures !AlikeTo(ar, heap, a, b, n)
    decreases |unmet|
  {
    hide EqualFrom, EqualAll;
    if a.Ref? && b.Ref? && a != b && IsArray(heap, a) && IsArray(heap, b) {
      var xs, ys := heap[a.address].items, heap[b.address].items;
      ArraysFrom(ar, heap, a.address, b.address, unmet);
      n := 1;
      if |xs| == |ys| {
        var less := unmet - {(a.address, b.address)};
        AllFound(ar, heap, xs, ys, less);
        var i :| 0 <= i < |xs| && EqualFrom(ar, heap, xs[i], ys[i], less) == Done(false);
        var m := UnequalFound(ar, heap, xs[i], ys[i], less);
        n := m + 1;
      }
    } else {
      n := 1;
      OthersFrom(ar, heap, a, b, unmet, n);
    }
  }

  /** Where == has an answer, it is whether the values are alike, and != is the opposite. */
  lemma {:induction false} EqualMeans(ar: Arith, heap: Heap, a: Value, b: Value)
    ensures Apply(ar, heap, Eql, a, b).Done? ==> Apply(ar, heap, Eql, a, b) == Done((Bool(Alike(ar, heap, a, b)), heap))
    ensures Apply(ar, heap, Neq, a, b).Done? ==>
        Apply(ar, heap, Neq, a, b) == Done((Bool(!Alike(ar, heap, a, b)), heap))
  {
    hide EqualFrom, AlikeTo;
    var all := AllPairs(heap);
    if EqualFrom(ar, heap, a, b, all) == Done(true) {
      forall n: nat ensures AlikeTo(ar, heap, a, b, n) {
        EqualFound(ar, heap, a, b, all, n);
      }
    } else if EqualFrom(ar, heap, a, b, all) == Done(false) {
      var n := UnequalFound(ar, heap, a, b, all);
    }
  }

  // ----- where it has an answer -----

  // Arrays in arrays down to the depth n and no deeper, with no map and no closure among them.
  ghost predicate Nested(heap: Heap, v: Value, n: nat)
    decreases n
  {
    && !v.Closure?
    && (v.Ref? ==> n > 0 && IsArray(heap, v))
    && (v.Ref? ==> forall i | 0 <= i < |heap[v.address].items| :: Nested(heap, heap[v.address].items[i], n - 1))
  }

  lemma {:induction false} NestedMore(heap: Heap, v: Value, n: nat)
    requires Nested(heap, v, n)
    ensures Nested(heap, v, n + 1)
    decreases n
  {
    if v.Ref? {
      var xs := heap[v.address].items;
      forall i | 0 <= i < |xs| ensures Nested(heap, xs[i], n) {
        NestedMore(heap, xs[i], n - 1);
      }
    }
  }

  // References of a value and of the heap are to objects of the heap.
  predicate Stands(heap: Heap, v: Value) {
    v.Ref? ==> v.address < |heap|
  }

  ghost predicate WellFormed(heap: Heap) {
    forall p: nat, i | p < |heap| && heap[p].ArrayObj? && 0 <= i < |heap[p].items| :: Stands(heap, heap[p].items[i])
  }

  // Every pair of arrays that was met already has a left one that is nested deeper.
  ghost predicate Deeper(heap: Heap, unmet: set<(nat, nat)>, n: nat) {
    forall p: nat, q: nat | p < |heap| && q < |heap| && (p, q) !in unmet :: !Nested(heap, Ref(p), n)
  }

  lemma {:induction false} AllAnswer(ar: Arith, heap: Heap, xs: seq<Value>, ys: seq<Value>, unmet: set<(nat, nat)>)
    requires |xs| == |ys| && forall i | 0 <= i < |xs| :: EqualFrom(ar, heap, xs[i], ys[i], unmet).Done?
    ensures EqualAll(ar, heap, xs, ys, unmet).Done?
    decreases |xs|
  {
    hide EqualFrom;
    if xs != [] {
      AllAnswer(ar, heap, xs[1..], ys[1..], unmet);
    }
  }

  lemma {:induction false} NestedAnswers(ar: Arith, heap: Heap, a: Value, b: Value, unmet: set<(nat, nat)>, n: nat)
    requires Nested(heap, a, n) && WellFormed(heap) && Stands(heap, b) && Deeper(heap, unmet, n)
    ensures EqualFrom(ar, heap, a, b, unmet).Done?
    decreases n
  {
    hide EqualAll, EqualFrom, Nested;
    NestedParts(heap, a, n);
    if a.Ref? && n > 0 && Nested(heap, a, n - 1) {
      forall p: nat, q: nat | p < |heap| && q < |heap| && (p, q) !in unmet ensures !Nested(heap, Ref(p), n - 1) {
        if Nested(heap, Ref(p), n - 1) {
          NestedMore(heap, Ref(p), n - 1);
        }
      }
      NestedAnswers(ar, heap, a, b, unmet, n - 1);
    } else if a.Ref? && IsArray(heap, b) && a != b && |heap[a.address].items| == |heap[b.address].items| {
      var p, q := a.address, b.address;
      var xs, ys, less := heap[p].items, heap[q].items, unmet - {(p, q)};
      forall p': nat, q': nat | p' < |heap| && q' < |heap| && (p', q') !in less
        ensures !Nested(heap, Ref(p'), n - 1)
      {
        if (p', q') != (p, q) && Nested(heap, Ref(p'), n - 1) {
          NestedMore(heap, Ref(p'), n - 1);
        }
      }
      forall i | 0 <= i < |xs| ensures EqualFrom(ar, heap, xs[i], ys[i], less).Done? {
        NestedAnswers(ar, heap, xs[i], ys[i], less, n - 1);
      }
      AllAnswer(ar, heap, xs, ys, less);
      MetLater(ar, heap, p, q, unmet);
    } else {
      AtOnce(ar, heap, a, b, unmet);
    }
  }

  lemma NestedParts(heap: Heap, v: Value, n: nat)
    requires Nested(heap, v, n)
    ensures !v.Closure?
    ensures v.Ref? ==> n > 0 && IsArray(heap, v)
    ensures v.Ref? ==>
              forall i | 0 <= i < |heap[v.address].items| :: Nested(heap, heap[v.address].items[i], n - 1)
  {
  }

  lemma MetLater(ar: Arith, heap: Heap, p: nat, q: nat, unmet: set<(nat, nat)>)
    requires p != q && p < |heap| && q < |heap| && heap[p].ArrayObj? && heap[q].ArrayObj? && (p, q) in unmet
    requires |heap[p].items| == |heap[q].items|
    requires EqualAll(ar, heap, heap[p].items, heap[q].items, unmet - {(p, q)}).Done?
    ensures EqualFrom(ar, heap, Ref(p), Ref(q), unmet).Done?
  {
    hide EqualAll;
  }

  lemma AtOnce(ar: Arith, heap: Heap, a: Value, b: Value, unmet: set<(nat, nat)>)
    requires !a.Closure? && (a.Ref? ==> IsArray(heap, a)) && Stands(heap, b)
    requires a.Ref? && IsArray(heap, b) && a != b ==> |heap[a.address].items| != |heap[b.address].items|
    ensures EqualFrom(ar, heap, a, b, unmet).Done?
  {
    hide EqualAll;
  }

  /** == and != have an answer wherever the left operand is no closure and no map, and the arrays in it are nested to
      some depth and hold none. */
  lemma {:induction false} EqualAnswers(ar: Arith, heap: Heap, a: Value, b: Value, n: nat)
    requires WellFormed(heap) && Stands(heap, b) && Nested(heap, a, n)
    ensures Apply(ar, heap, Eql, a, b).Done? && Apply(ar, heap, Neq, a, b).Done?
  {
    hide EqualFrom, Nested, WellFormed;
    NestedAnswers(ar, heap, a, b, AllPairs(heap), n);
  }
}

/**
 Mark and sweep (src/vm_gc.c). Marking terminates on any graph, cyclic or not, and marks exactly the objects
 that can be reached from the stack and the call frames; sweeping unlinks the others from the list of all
 objects, keeps the order of the rest and clears their marks.
 */
module Gc {
  // ----- objects -----

  datatype Value = Plain | Ref(o: Obj)

  datatype Entry = Entry(key: Obj?, value: Value)

  datatype Body =
    | String
    | Native
    | Array(items: seq<Value>)
    | Map(entries: seq<Entry>)
    | Function(constants: seq<Value>, globals: Obj?)
    | Closure(fn: Obj, upvalues: seq<Obj>)
    | Upvalue(location: Value, closed: Value, nextOpen: Obj?)

  class Obj {
    const body: Body
    var marked: bool
    var next: Obj?

    constructor (body: Body, next: Obj?)
      ensures this.body == body && !marked && this.next == next
    {
      this.body, marked, this.next := body, false, next;
    }
  }

  // ----- the graph that marking follows -----

  function Targets(values: seq<Value>): set<Obj> {
    set v | v in values && v.Ref? :: v.o
  }

  function Maybe(o: Obj?): set<Obj> {
    if o == null then {} else {o}
  }

  function EntryEdges(e: Entry): set<Obj> {
    if e.key == null then {} else {e.key} + Targets([e.value])
  }

  function EntriesEdges(es: seq<Entry>): set<Obj> {
    if es == [] then {} else EntriesEdges(es[..|es| - 1]) + EntryEdges(es[|es| - 1])
  }

  function Edges(b: Body): set<Obj> {
    match b
    case Array(items) => Targets(items)
    case Map(entries) => EntriesEdges(entries)
    case Function(constants, globals) => Targets(constants) + Maybe(globals)
    case Closure(fn, upvalues) => {fn} + (set u | u in upvalues)
    case Upvalue(location, closed, next) => Targets([location, closed]) + Maybe(next)
    case _ => {}
  }

  /** The references of a body, field by field: the values of an array, the key and the value of a map entry that has
      a key, the constants and the globals of a function, the function and the upvalues of a closure, the values and
      the successor of an upvalue. */
  predicate RefersTo(b: Body, older o: Obj) {
    match b
    case Array(items) => Ref(o) in items
    case Map(entries) => exists e | e in entries :: e.key != null && (e.key == o || e.value == Ref(o))
    case Function(constants, globals) => Ref(o) in constants || globals == o
    case Closure(fn, upvalues) => fn == o || o in upvalues
    case Upvalue(location, closed, next) => location == Ref(o) || closed == Ref(o) || next == o
    case _ => false
  }

  // Whatever an object of the set refers to is in the set.
  ghost predicate Contained(s: set<Obj>) {
    forall o, p | o in s && RefersTo(o.body, p) :: p in s
  }

  // A heap: objects whose references stay inside it, and whose maps have strings for keys.
  ghost predicate Heap(heap: set<Obj>) {
    && Contained(heap)
    && (forall o, e | o in heap && o.body.Map? && e in o.body.entries && e.key != null :: e.key.body.String?)
  }

  lemma {:induction false} EntriesHave(es: seq<Entry>, o: Obj)
    ensures o in EntriesEdges(es) <==> exists e | e in es :: o in EntryEdges(e)
  {
    if es != [] {
      var init, last := es[..|es| - 1], es[|es| - 1];
      EntriesHave(init, o);
      assert forall e | e in es :: e in init || e == last;
    }
  }

  /** The edges that marking follows are exactly the references. */
  lemma {:induction false} EdgesAre(b: Body, o: Obj)
    ensures o in Edges(b) <==> RefersTo(b, o)
  {
    if b.Map? {
      EntriesHave(b.entries, o);
      assert forall e | e in b.entries :: o in EntryEdges(e) <==> e.key != null && (e.key == o || e.value == Ref(o));
    }
  }

  lemma {:induction false} ContainedEdges(s: set<Obj>, o: Obj)
    requires Contained(s) && o in s
    ensures Edges(o.body) <= s
  {
    hide Edges, RefersTo;
    forall p | p in Edges(o.body) ensures p in s {
      EdgesAre(o.body, p);
    }
  }

  // What it is for a set of objects to have all references of its objects, one kind of object after another.
  lemma {:induction false} ContainedFields(s: set<Obj>)
    requires Contained(s)
    ensures forall o, v | o in s && o.body.Array? && v in o.body.items && v.Ref? :: v.o in s
    ensures forall o, e | o in s && o.body.Map? && e in o.body.entries && e.key != null ::
              e.key in s && (e.value.Ref? ==> e.value.o in s)
    ensures forall o, v | o in s && o.body.Function? && v in o.body.constants && v.Ref? :: v.o in s
    ensures forall o | o in s && o.body.Function? && o.body.globals != null :: o.body.globals in s
    ensures forall o | o in s && o.body.Closure? :: o.body.fn in s && forall u | u in o.body.upvalues :: u in s
    ensures forall o, v | o in s && o.body.Upvalue? && v in [o.body.location, o.body.closed] && v.Ref? :: v.o in s
    ensures forall o | o in s && o.body.Upvalue? && o.body.nextOpen != null :: o.body.nextOpen in s
  {
    hide Contained;
    forall o, p | o in s && RefersTo(o.body, p) ensures p in s {
      ContainedAt(s, o, p);
    }
    forall o, v | o in s && o.body.Array? && v in o.body.items && v.Ref? ensures v.o in s {
      assert RefersTo(o.body, v.o);
    }
    forall o, e | o in s && o.body.Map? && e in o.body.entries && e.key != null
      ensures e.key in s && (e.value.Ref? ==> e.value.o in s)
    {
      assert RefersTo(o.body, e.key);
      assert e.value.Ref? ==> RefersTo(o.body, e.value.o);
    }
    forall o, v | o in s && o.body.Function? && v in o.body.constants && v.Ref? ensures v.o in s {
      assert RefersTo(o.body, v.o);
    }
  }

  lemma HeapContained(heap: set<Obj>)
    requires Heap(heap)
    ensures Contained(heap)
  {
    hide Contained;
  }

  lemma ContainedAt(s: set<Obj>, o: Obj, p: Obj)
    requires Contained(s) && o in s && RefersTo(o.body, p)
    ensures p in s
  {
    hide RefersTo;
  }

  ghost function ReachedIn(heap: set<Obj>, roots: set<Obj>, n: nat): set<Obj> {
    if n == 0 then roots
    else
      var before := ReachedIn(heap, roots, n - 1);
      before + (set o | o in heap && exists p :: p in before && o in Edges(p.body))
  }

  // There is a path from a root to o.
  ghost predicate Reachable(heap: set<Obj>, roots: set<Obj>, o: Obj) {
    exists n: nat :: o in ReachedIn(heap, roots, n)
  }

  lemma {:induction false} RootReachable(heap: set<Obj>, roots: set<Obj>, o: Obj)
    requires o in roots
    ensures Reachable(heap, roots, o)
  {
    assert o in ReachedIn(heap, roots, 0);
  }

  lemma {:induction false} EdgeReachable(heap: set<Obj>, roots: set<Obj>, p: Obj, o: Obj)
    requires Reachable(heap, roots, p) && o in Edges(p.body) && o in heap
    ensures Reachable(heap, roots, o)
  {
    var n: nat :| p in ReachedIn(heap, roots, n);
    assert o in ReachedIn(heap, roots, n + 1);
  }

  // A closed set with the roots has everything that can be reached.
  lemma {:induction false} ClosedHasReached(heap: set<Obj>, roots: set<Obj>, s: set<Obj>, n: nat)
    requires roots <= s && forall p | p in s :: Edges(p.body) <= s
    ensures ReachedIn(heap, roots, n) <= s
  {
    if n > 0 {
      ClosedHasReached(heap, roots, s, n - 1);
    }
  }

  // ----- marking -----

  ghost function Marked(heap: set<Obj>): set<Obj>
    reads heap
  {
    set o | o in heap && o.marked
  }

  // Marks only grow, by reachable objects all of whose edges have been followed.
  ghost predicate Grown(heap: set<Obj>, roots: set<Obj>, before: set<Obj>, after: set<Obj>) {
    before <= after && forall o | o in after && o !in before :: Reachable(heap, roots, o) && Edges(o.body) <= after
  }

  // Objects that may be marked next.
  ghost predicate Pending(heap: set<Obj>, roots: set<Obj>, os: set<Obj>) {
    forall o | o in os :: o in heap && Reachable(heap, roots, o)
  }

  lemma GrownTwice(heap: set<Obj>, roots: set<Obj>, a: set<Obj>, b: set<Obj>, c: set<Obj>)
    requires Grown(heap, roots, a, b) && Grown(heap, roots, b, c)
    ensures Grown(heap, roots, a, c)
  {
    hide Reachable, Edges;
  }

  // An object is done once its edges are marked.
  lemma GrownBy(heap: set<Obj>, roots: set<Obj>, a: set<Obj>, obj: Obj, c: set<Obj>)
    requires Grown(heap, roots, a + {obj}, c) && Reachable(heap, roots, obj) && Edges(obj.body) <= c
    ensures Grown(heap, roots, a, c)
  {
    hide Reachable, Edges;
  }

  lemma {:induction false} EdgesPending(heap: set<Obj>, roots: set<Obj>, obj: Obj)
    requires Heap(heap) && obj in heap && Reachable(heap, roots, obj)
    ensures Pending(heap, roots, Edges(obj.body))
  {
    hide Reachable, Edges, RefersTo;
    ContainedEdges(heap, obj);
    forall o | o in Edges(obj.body) ensures o in heap && Reachable(heap, roots, o) {
      EdgeReachable(heap, roots, obj, o);
    }
  }

  // vm_mark_object.
  method MarkObject(obj: Obj, ghost heap: set<Obj>, ghost roots: set<Obj>)
    requires Heap(heap) && Pending(heap, roots, {obj})
    modifies heap`marked
    ensures obj in Marked(heap) && Grown(heap, roots, old(Marked(heap)), Marked(heap))
    decreases heap - Marked(heap), 1
  {
    hide Reachable, Heap, Pending, Grown;
    if obj.marked {
      PendingIn(heap, roots, {obj});
      NothingGrown(heap, roots, Marked(heap));
      return;
    }
    ghost var before := Marked(heap);
    PendingIn(heap, roots, {obj});
    obj.marked := true;
    assert Marked(heap) == before + {obj};
    EdgesPending(heap, roots, obj);
    MarkEdges(obj, heap, roots);
    GrownOnly(heap, roots, before + {obj}, Marked(heap));
    GrownBy(heap, roots, before, obj, Marked(heap));
  }

  // The switch of vm_mark_object.
  method MarkEdges(obj: Obj, ghost heap: set<Obj>, ghost roots: set<Obj>)
    requires Heap(heap) && obj in heap && Pending(heap, roots, Edges(obj.body))
    modifies heap`marked
    ensures Edges(obj.body) <= Marked(heap) && Grown(heap, roots, old(Marked(heap)), Marked(heap))
    decreases heap - Marked(heap), 5
  {
    hide Reachable, Grown;
    ghost var m0 := Marked(heap);
    NothingGrown(heap, roots, m0);
    match obj.body {
      case Array(items) => MarkValues(items, heap, roots);
      case Map(entries) => MarkEntries(entries, heap, roots);
      case Function(constants, globals) =>
        MarkValues(constants, heap, roots);
        if globals != null {
          ghost var m1 := Marked(heap);
          GrownOnly(heap, roots, m0, m1);
          MarkObject(globals, heap, roots);
          GrownTwice(heap, roots, m0, m1, Marked(heap));
          GrownOnly(heap, roots, m1, Marked(heap));
        }
      case Closure(fn, upvalues) =>
        MarkObject(fn, heap, roots);
        ghost var m1 := Marked(heap);
        GrownOnly(heap, roots, m0, m1);
        MarkObjects(upvalues, heap, roots);
        GrownTwice(heap, roots, m0, m1, Marked(heap));
        GrownOnly(heap, roots, m1, Marked(heap));
      case Upvalue(location, closed, next) =>
        MarkValues([location, closed], heap, roots);
        if next != null {
          ghost var m1 := Marked(heap);
          GrownOnly(heap, roots, m0, m1);
          MarkObject(next, heap, roots);
          GrownTwice(heap, roots, m0, m1, Marked(heap));
          GrownOnly(heap, roots, m1, Marked(heap));
        }
      case String =>
      case Native =>
    }
  }

  // vm_mark_value on each of some values.
  method MarkValues(values: seq<Value>, ghost heap: set<Obj>, ghost roots: set<Obj>)
    requires Heap(heap) && Pending(heap, roots, Targets(values))
    modifies heap`marked
    ensures Targets(values) <= Marked(heap) && Grown(heap, roots, old(Marked(heap)), Marked(heap))
    decreases heap - Marked(heap), 2
  {
    hide Reachable, Heap, Grown;
    ghost var m0 := Marked(heap);
    NothingGrown(heap, roots, m0);
    var i := 0;
    while i < |values|
      invariant i <= |values| && Targets(values[..i]) <= Marked(heap) && Grown(heap, roots, m0, Marked(heap))
          && m0 <= Marked(heap)
    {
      ghost var m1 := Marked(heap);
      TargetsNext(values, i);
      if values[i].Ref? {
        MarkObject(values[i].o, heap, roots);
        GrownTwice(heap, roots, m0, m1, Marked(heap));
        GrownOnly(heap, roots, m1, Marked(heap));
      }
      i := i + 1;
    }
    assert values[..i] == values;
  }

  lemma TargetsNext(values: seq<Value>, i: nat)
    requires i < |values|
    ensures Targets(values[..i + 1]) == Targets(values[..i]) + (if values[i].Ref? then {values[i].o} else {})
    ensures Targets(values[..i + 1]) <= Targets(values)
    ensures values[i].Ref? ==> values[i].o in Targets(values)
  {
    assert values[..i + 1] == values[..i] + [values[i]];
  }

  method MarkObjects(objs: seq<Obj>, ghost heap: set<Obj>, ghost roots: set<Obj>)
    requires Heap(heap) && Pending(heap, roots, set o | o in objs)
    modifies heap`marked
    ensures (forall o | o in objs :: o in Marked(heap)) && Grown(heap, roots, old(Marked(heap)), Marked(heap))
    decreases heap - Marked(heap), 2
  {
    hide Reachable, Heap, Grown;
    ghost var m0 := Marked(heap);
    NothingGrown(heap, roots, m0);
    var i := 0;
    while i < |objs|
      invariant i <= |objs| && (forall o | o in objs[..i] :: o in Marked(heap)) && Grown(heap, roots, m0, Marked(heap))
          && m0 <= Marked(heap)
    {
      ghost var m1 := Marked(heap);
      assert objs[..i + 1] == objs[..i] + [objs[i]];
      MarkObject(objs[i], heap, roots);
      GrownTwice(heap, roots, m0, m1, Marked(heap));
      GrownOnly(heap, roots, m1, Marked(heap));
      i := i + 1;
    }
    assert objs[..i] == objs;
  }

  // The keys of a map are strings: they are marked without a visit.
  method MarkEntry(entry: Entry, ghost heap: set<Obj>, ghost roots: set<Obj>)
    requires Heap(heap) && Pending(heap, roots, EntryEdges(entry)) && (entry.key != null ==> entry.key.body.String?)
    modifies heap`marked
    ensures EntryEdges(entry) <= Marked(heap) && Grown(heap, roots, old(Marked(heap)), Marked(heap))
    decreases heap - Marked(heap), 3
  {
    hide Reachable, Heap, Grown;
    ghost var m0 := Marked(heap);
    NothingGrown(heap, roots, m0);
    if entry.key != null {
      entry.key.marked := true;
      ghost var m1 := Marked(heap);
      assert m1 == m0 + {entry.key};
      KeyGrown(heap, roots, m0, entry.key);
      MarkValues([entry.value], heap, roots);
      GrownTwice(heap, roots, m0, m1, Marked(heap));
      GrownOnly(heap, roots, m1, Marked(heap));
    }
  }

  method MarkEntries(entries: seq<Entry>, ghost heap: set<Obj>, ghost roots: set<Obj>)
    requires Heap(heap) && Pending(heap, roots, EntriesEdges(entries))
    requires forall e | e in entries && e.key != null :: e.key.body.String?
    modifies heap`marked
    ensures EntriesEdges(entries) <= Marked(heap) && Grown(heap, roots, old(Marked(heap)), Marked(heap))
    decreases heap - Marked(heap), 4
  {
    hide Reachable, Heap, Grown;
    ghost var m0 := Marked(heap);
    NothingGrown(heap, roots, m0);
    var i := 0;
    assert entries[..0] == [];
    while i < |entries|
      invariant i <= |entries| && EntriesEdges(entries[..i]) <= Marked(heap) && Grown(heap, roots, m0, Marked(heap))
          && m0 <= Marked(heap)
    {
      var entry := entries[i];
      EntriesNext(entries, i);
      ghost var m1 := Marked(heap);
      MarkEntry(entry, heap, roots);
      GrownTwice(heap, roots, m0, m1, Marked(heap));
      GrownOnly(heap, roots, m1, Marked(heap));
      i := i + 1;
    }
    assert entries[..i] == entries;
  }

  lemma KeyGrown(heap: set<Obj>, roots: set<Obj>, m: set<Obj>, key: Obj)
    requires Reachable(heap, roots, key) && key.body.String?
    ensures Grown(heap, roots, m, m + {key})
  {
    hide Reachable;
  }

  lemma {:induction false} EntriesNext(entries: seq<Entry>, i: nat)
    requires i < |entries|
    ensures EntriesEdges(entries[..i + 1]) == EntriesEdges(entries[..i]) + EntryEdges(entries[i])
    ensures EntryEdges(entries[i]) <= EntriesEdges(entries)
    decreases |entries|
  {
    var n := |entries| - 1;
    assert entries[..i + 1][..i] == entries[..i];
    if i < n {
      var init := entries[..n];
      EntriesNext(init, i);
      assert init[i] == entries[i];
    } else {
      assert entries[..i + 1] == entries;
    }
  }

  lemma NothingGrown(heap: set<Obj>, roots: set<Obj>, m: set<Obj>)
    ensures Grown(heap, roots, m, m)
  {
  }

  lemma GrownOnly(heap: set<Obj>, roots: set<Obj>, a: set<Obj>, b: set<Obj>)
    requires Grown(heap, roots, a, b)
    ensures a <= b
  {
  }

  lemma PendingIn(heap: set<Obj>, roots: set<Obj>, os: set<Obj>)
    requires Pending(heap, roots, os)
    ensures forall o | o in os :: o in heap && Reachable(heap, roots, o)
  {
  }

  // ----- roots -----

  // The reachable part of a heap is a heap.
  lemma {:induction false} StillHeap(heap: set<Obj>, roots: set<Obj>, kept: set<Obj>)
    requires Heap(heap) && kept == set o | o in heap && Reachable(heap, roots, o)
    ensures Heap(kept)
  {
    hide Edges, RefersTo, Reachable;
    forall o, p | o in kept && RefersTo(o.body, p) ensures p in kept {
      EdgesAre(o.body, p);
      EdgeReachable(heap, roots, o, p);
    }
  }

  // The objects on the stack and the functions of the call frames.
  function Roots(stack: seq<Value>, frames: seq<Obj>): set<Obj> {
    (set v | v in stack && v.Ref? :: v.o) + (set f | f in frames)
  }

  lemma RootsAre(stack: seq<Value>, frames: seq<Obj>)
    ensures Roots(stack, frames) == Targets(stack) + (set f | f in frames)
  {
  }

  // Nothing can be reached that is not in every set that has the roots and the references of its objects.
  lemma {:induction false} ReachedInside(heap: set<Obj>, roots: set<Obj>, s: set<Obj>, o: Obj)
    requires roots <= s && Contained(s) && Reachable(heap, roots, o)
    ensures o in s
  {
    hide Contained, Edges;
    var n: nat :| o in ReachedIn(heap, roots, n);
    forall p | p in s ensures Edges(p.body) <= s {
      ContainedEdges(s, p);
    }
    ClosedHasReached(heap, roots, s, n);
  }

  /** From a heap without marks, the marks after vm_mark_roots are exactly the objects that can be reached from
      the stack and from the functions of the call frames. */
  method MarkRoots(stack: seq<Value>, frames: seq<Obj>, ghost heap: set<Obj>)
    requires Heap(heap) && Roots(stack, frames) <= heap && Marked(heap) == {}
    modifies heap`marked
    ensures forall o | o in heap :: o.marked <==> Reachable(heap, Roots(stack, frames), o)
    ensures Roots(stack, frames) <= Marked(heap) && Heap(Marked(heap))
  {
    hide Edges, Heap, Contained, Targets, Roots;
    ghost var roots := Roots(stack, frames);
    RootsAre(stack, frames);
    forall o | o in roots ensures Reachable(heap, roots, o) {
      RootReachable(heap, roots, o);
    }
    MarkValues(stack, heap, roots);
    ghost var m1 := Marked(heap);
    MarkObjects(frames, heap, roots);
    GrownTwice(heap, roots, {}, m1, Marked(heap));
    ghost var m := Marked(heap);
    forall o | o in heap && Reachable(heap, roots, o) ensures o.marked {
      var n: nat :| o in ReachedIn(heap, roots, n);
      ClosedHasReached(heap, roots, m, n);
    }
    StillHeap(heap, roots, m);
  }

  // ----- sweeping -----

  // The list from head on is exactly these objects.
  ghost predicate Linked(head: Obj?, list: seq<Obj>)
    reads (set o | o in list)`next
  {
    && head == (if list == [] then null else list[0])
    && (forall i | 0 <= i < |list| :: list[i].next == Following(list, i))
    && (forall i, j | 0 <= i < j < |list| :: list[i] != list[j])
  }

  function Following(list: seq<Obj>, i: nat): Obj? {
    if i + 1 < |list| then list[i + 1] else null
  }

  // The objects of a list that are in a set, in order.
  ghost function Only(list: seq<Obj>, keep: set<Obj>): (r: seq<Obj>)
    ensures forall o | o in r :: o in list && o in keep
    ensures forall o | o in list && o in keep :: o in r
  {
    if list == [] then []
    else
      var init, last := list[..|list| - 1], list[|list| - 1];
      assert forall o | o in list :: o in init || o == last;
      Only(init, keep) + (if last in keep then [last] else [])
  }

  lemma OnlyNext(list: seq<Obj>, i: nat, keep: set<Obj>)
    requires i < |list|
    ensures Only(list[..i + 1], keep) == Only(list[..i], keep) + (if list[i] in keep then [list[i]] else [])
  {
    assert list[..i + 1][..i] == list[..i];
  }

  lemma LinkedAt(head: Obj?, list: seq<Obj>, k: nat)
    requires Linked(head, list) && k <= |list|
    ensures k < |list| ==> list[k].next == Following(list, k)
    ensures forall j | 0 <= j < |list| && j != k && k < |list| :: list[j] != list[k]
    ensures head == if list == [] then null else list[0]
  {
  }

  function First(list: seq<Obj>): Obj? {
    if list == [] then null else list[0]
  }

  function Last(list: seq<Obj>): Obj? {
    if list == [] then null else list[|list| - 1]
  }

  lemma SweepStarts(head: Obj?, list: seq<Obj>, keep: set<Obj>)
    requires Linked(head, list)
    ensures Only(list[..0], keep) == [] && head == First(list) && [] + list == list && list[0..] == list
  {
    assert list[..0] == [];
  }

  // The object at the head of what is left of the list.
  lemma {:induction false} CurrentAt(left: seq<Obj>, rest: seq<Obj>, all: seq<Obj>, current: Obj)
    requires rest != [] && current == rest[0] && all == left + rest
    ensures |left| < |all| && all[|left|] == current && (|left| > 0 ==> all[|left| - 1] == Last(left))
    ensures all[..|left|] + all[|left| + 1..] == left + rest[1..] && (left + [current]) + rest[1..] == all
    ensures Following(all, |left|) == First(rest[1..])
  {
    assert all[|left| + 1..] == rest[1..];
    assert all[..|left|] == left;
  }

  lemma {:induction false} CurrentOnce(head: Obj?, left: seq<Obj>, rest: seq<Obj>, all: seq<Obj>, current: Obj)
    requires rest != [] && current == rest[0] && all == left + rest && Linked(head, all)
    ensures current !in rest[1..] && current !in left && current.next == Following(all, |left|)
  {
    LinkedAt(head, all, |left|);
    hide Linked;
    forall j | 0 <= j < |rest| - 1 ensures rest[1..][j] != current {
      assert rest[1..][j] == all[|left| + 1 + j];
    }
    forall j | 0 <= j < |left| ensures left[j] != current {
      assert left[j] == all[j];
    }
  }

  // One object further on.
  lemma {:induction false} SweepStep(head: Obj?, left: seq<Obj>, list: seq<Obj>, i: nat, rest: seq<Obj>,
      keep: set<Obj>, current: Obj)
    requires i < |list| && rest == list[i..] && current == rest[0] && Linked(head, left + rest)
        && left == Only(list[..i], keep)
    ensures rest[1..] == list[i + 1..] && current.next == First(rest[1..]) && current !in rest[1..] && current !in left
    ensures var all := left + rest;
            && |left| < |all| && all[|left|] == current && (|left| > 0 ==> all[|left| - 1] == Last(left))
            && all[..|left|] + all[|left| + 1..] == left + rest[1..] && (left + [current]) + rest[1..] == all
    ensures Only(list[..i + 1], keep) == left + (if current in keep then [current] else [])
    ensures forall o | o in rest[1..] :: o in rest
    ensures forall o | o in left + rest :: o in left || o in rest
  {
    hide Only, Linked, First, Last, Following;
    OnlyNext(list, i, keep);
    CurrentAt(left, rest, left + rest, current);
    CurrentOnce(head, left, rest, left + rest, current);
  }

  lemma SweepEnds(list: seq<Obj>, i: nat, left: seq<Obj>, rest: seq<Obj>)
    requires i <= |list| && rest == list[i..] && First(rest) == null
    ensures list[..i] == list && left + rest == left
  {
  }

  class Vm {
    var objects: Obj?

    // The loop of vm_sweep_objects has dealt with the first i objects of the list and kept `left` of them.
    ghost predicate Sweeping(list: seq<Obj>, keep: set<Obj>, i: nat, left: seq<Obj>, previous: Obj?, current: Obj?)
      reads this, list, left
    {
      && i <= |list| && left == Only(list[..i], keep) && Linked(objects, left + list[i..])
      && current == First(list[i..]) && previous == Last(left)
      && (forall o | o in left :: !o.marked && o in list)
      && (forall o | o in list[i..] :: o.marked <==> o in keep)
    }

    // vm_sweep_objects: what is left is the marked objects, in their order, without their marks.
    method SweepObjects(ghost list: seq<Obj>) returns (ghost left: seq<Obj>)
      requires Linked(objects, list)
      modifies this, (set o | o in list)
      ensures left == Only(list, old(Marked(set o | o in list))) && Linked(objects, left)
      ensures forall o | o in left :: !o.marked
    {
      hide Linked, Only, Sweeping;
      var previous: Obj? := null;
      var current := objects;
      ghost var i, keep := 0, Marked(set o | o in list);
      left := [];
      SweepBegins(list);
      while current != null
        invariant i <= |list| && Sweeping(list, keep, i, left, previous, current)
        decreases |list| - i
      {
        SweepIn(list, keep, i, left, list[i..], previous, current);
        if current.marked {
          left := Keep(list, keep, i, left, previous, current);
          previous := current;
        } else {
          Drop(list, keep, i, left, previous, current);
        }
        current := current.next;
        i := i + 1;
      }
      SweepEnded(list, keep, i, left, previous);
    }

    lemma SweepBegins(list: seq<Obj>)
      requires Linked(objects, list)
      ensures Sweeping(list, Marked(set o | o in list), 0, [], null, objects)
    {
      hide Linked, Only;
      SweepStarts(objects, list, Marked(set o | o in list));
    }

    lemma SweepIn(list: seq<Obj>, keep: set<Obj>, i: nat, left: seq<Obj>, rest: seq<Obj>, previous: Obj?, current: Obj)
      requires Sweeping(list, keep, i, left, previous, current) && rest == list[i..]
      ensures i < |list| && current == list[i] == rest[0] && (previous != null ==> previous in list)
      ensures left == Only(list[..i], keep) && Linked(objects, left + rest) && previous == Last(left)
      ensures forall o | o in left :: !o.marked && o in list
      ensures forall o | o in rest :: o in list && (o.marked <==> o in keep)
    {
      hide Linked, Only;
    }

    lemma SweepOn(list: seq<Obj>, keep: set<Obj>, i: nat, left: seq<Obj>, rest: seq<Obj>, previous: Obj?, current: Obj?)
      requires i <= |list| && rest == list[i..] && left == Only(list[..i], keep) && Linked(objects, left + rest)
      requires current == First(rest) && previous == Last(left)
      requires forall o | o in left :: !o.marked && o in list
      requires forall o | o in rest :: o.marked <==> o in keep
      ensures Sweeping(list, keep, i, left, previous, current)
    {
      hide Linked, Only;
    }

    lemma SweepEnded(list: seq<Obj>, keep: set<Obj>, i: nat, left: seq<Obj>, previous: Obj?)
      requires Sweeping(list, keep, i, left, previous, null)
      ensures left == Only(list, keep) && Linked(objects, left) && forall o | o in left :: !o.marked
    {
      hide Linked, Only;
      SweepEnds(list, i, left, list[i..]);
    }

    /** A whole cycle (vm_gc): the list keeps exactly the reachable objects, the roots and whatever a kept object
        refers to among them and nothing that could be left out, and is ready for the next cycle. */
    method Collect(stack: seq<Value>, frames: seq<Obj>, ghost list: seq<Obj>) returns (ghost left: seq<Obj>)
      requires Linked(objects, list) && Heap(set o | o in list) && Roots(stack, frames) <= (set o | o in list)
      requires forall o | o in list :: !o.marked
      modifies this, (set o | o in list)
      ensures Linked(objects, left) && Heap(set o | o in left) && forall o | o in left :: !o.marked
      ensures left == Only(list, set o | o in list
          && Reachable((set p | p in list), Roots(stack, frames), o))
      ensures (forall v | v in stack && v.Ref? :: v.o in left) && (forall f | f in frames :: f in left)
      ensures forall o, v | o in left && o.body.Array? && v in o.body.items && v.Ref? :: v.o in left
      ensures forall o, e | o in left && o.body.Map? && e in o.body.entries && e.key != null ::
                e.key in left && (e.value.Ref? ==> e.value.o in left)
      ensures forall o, v | o in left && o.body.Function? && v in o.body.constants && v.Ref? :: v.o in left
      ensures forall o | o in left && o.body.Function? && o.body.globals != null :: o.body.globals in left
      ensures forall o | o in left && o.body.Closure? ::
                o.body.fn in left && forall u | u in o.body.upvalues :: u in left
      ensures forall o, v | o in left && o.body.Upvalue? && v in [o.body.location, o.body.closed] && v.Ref? ::
                v.o in left
      ensures forall o | o in left && o.body.Upvalue? && o.body.nextOpen != null :: o.body.nextOpen in left
      ensures forall s | Roots(stack, frames) <= s && Contained(s) :: forall o | o in left :: o in s
    {
      hide Linked, Only, Reachable, RefersTo, Contained, Heap;
      ghost var heap, roots := (set o | o in list), Roots(stack, frames);
      assert Marked(heap) == {};
      MarkRoots(stack, frames, heap);
      ghost var m := Marked(heap);
      assert m == set o | o in list && Reachable(heap, roots, o);
      left := SweepObjects(list);
      ghost var kept := set o | o in left;
      assert kept == m;
      HeapContained(kept);
      ContainedFields(kept);
      assert forall o | o in roots :: o in left;
      forall s, o | roots <= s && Contained(s) && o in left ensures o in s {
        ReachedInside(heap, roots, s, o);
      }
    }

    method Keep(ghost list: seq<Obj>, ghost keep: set<Obj>, ghost i: nat, ghost left: seq<Obj>, previous: Obj?,
        current: Obj)
      returns (ghost left': seq<Obj>)
      requires Sweeping(list, keep, i, left, previous, current) && current.marked
      modifies current`marked
      ensures Sweeping(list, keep, i + 1, left', current, current.next) && i < |list|
    {
      hide Linked, Only;
      ghost var rest := list[i..];
      SweepStep(objects, left, list, i, rest, keep, current);
      assert current in rest && current in list;
      left' := left + [current];
      assert Linked(objects, left' + rest[1..]);
      current.marked := false;
      assert forall o | o in left' :: o in left || o == current;
    }

    method Drop(ghost list: seq<Obj>, ghost keep: set<Obj>, ghost i: nat, ghost left: seq<Obj>, previous: Obj?,
        current: Obj)
      requires i < |list| && Sweeping(list, keep, i, left, previous, current) && !current.marked
      modifies this, (set o | o in list)`next
      ensures Sweeping(list, keep, i + 1, left, previous, current.next)
    {
      hide Linked, Only, First, Following, Sweeping;
      ghost var rest, after := list[i..], list[i + 1..];
      SweepIn(list, keep, i, left, rest, previous, current);
      SweepStep(objects, left, list, i, rest, keep, current);
      Unlink(left + rest, |left|, previous, current);
      assert Linked(objects, left + after);
      assert current.next == First(after);
      SweepOn(list, keep, i + 1, left, after, previous, current.next);
    }

    // Takes the object at position k out of the list.
    method Unlink(ghost all: seq<Obj>, ghost k: nat, previous: Obj?, current: Obj)
      requires Linked(objects, all) && k < |all| && current == all[k]
          && previous == (if k == 0 then null else all[k - 1])
      modifies this, (set o | o in all)`next
      ensures Linked(objects, all[..k] + all[k + 1..]) && current.next == old(current.next)
    {
      ghost var now := all[..k] + all[k + 1..];
      LinkedAt(objects, all, k);
      Removed(objects, all, k, now);
      hide Linked;
      label linked:
      if previous == null {
        objects := current.next;
      } else {
        previous.next := current.next;
      }
      forall i | 0 <= i < |now| ensures now[i].next == Following(now, i) {
        RemovedAt(all, k, now, i);
        assert i + 1 != k ==> now[i].next == old@linked(now[i].next);
      }
      IsLinked(objects, now);
    }
  }

  lemma Removed(head: Obj?, all: seq<Obj>, k: nat, now: seq<Obj>)
    requires Linked(head, all) && k < |all| && now == all[..k] + all[k + 1..]
    ensures Distinct(now) && First(now) == (if k == 0 then all[k].next else all[0])
    ensures forall i | 0 <= i < |now| :: now[i].next == Following(all, if i < k then i else i + 1)
    ensures forall i | 0 <= i < |now| && i + 1 != k && k > 0 :: now[i] != all[k - 1]
  {
    assert forall i | 0 <= i < |now| :: now[i] == all[if i < k then i else i + 1];
  }

  predicate Distinct(list: seq<Obj>) {
    forall i, j | 0 <= i < j < |list| :: list[i] != list[j]
  }

  lemma RemovedAt(all: seq<Obj>, k: nat, now: seq<Obj>, i: nat)
    requires k < |all| && now == all[..k] + all[k + 1..] && i < |now|
    ensures now[i] == all[if i < k then i else i + 1]
    ensures Following(now, i) == if i + 1 == k then Following(all, k) else Following(all, if i < k then i else i + 1)
  {
  }

  lemma IsLinked(head: Obj?, list: seq<Obj>)
    requires head == First(list) && Distinct(list) && forall i | 0 <= i < |list| :: list[i].next == Following(list, i)
    ensures Linked(head, list)
  {
  }
}

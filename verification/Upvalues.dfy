/**
 Captured variables (vm_capture_upvalue, vm_close_upvalues and the instructions on upvalues in src/vm.c). A
 captured variable is one cell that the running function reaches through its stack slot and every closure
 through an upvalue object: the list of open upvalues, sorted by slot, keeps the two together, and closing an
 upvalue moves the cell off the stack without any closure noticing.
 */
module Upvalues {
  import opened Syntax
  import opened Values

  datatype Location = OnStack(slot: nat) | Own // the closed field of the upvalue itself

  class ObjUpvalue {
    var location: Location
    var closed: Value
    var next: ObjUpvalue?

    constructor (slot: nat)
      ensures location == OnStack(slot) && closed == Null && next == null
    {
      location, closed, next := OnStack(slot), Null, null;
    }
  }

  // ----- the list of open upvalues -----

  function After(open: seq<ObjUpvalue>, i: nat): ObjUpvalue? {
    if i + 1 < |open| then open[i + 1] else null
  }

  // The list holds these upvalues, on these slots.
  ghost predicate Lists(head: ObjUpvalue?, open: seq<ObjUpvalue>, at: seq<nat>)
    reads open
  {
    && |open| == |at| && head == (if open == [] then null else open[0])
    && (forall i | 0 <= i < |open| :: open[i].location == OnStack(at[i]))
    && (forall i | 0 <= i < |open| :: open[i].next == After(open, i))
    && AllDistinct(open)
  }

  predicate AllDistinct(open: seq<ObjUpvalue>) {
    forall i, j | 0 <= i < j < |open| :: open[i] != open[j]
  }

  // Below sp, the topmost slot first, each at most once.
  predicate Descending(at: seq<nat>, sp: nat) {
    (forall i | 0 <= i < |at| :: at[i] < sp) && (forall i, j | 0 <= i < j < |at| :: at[i] > at[j])
  }

  // ----- cells -----

  // The live slots show their cells.
  predicate SlotsShow(live: seq<Value>, slots: seq<nat>, store: map<nat, Value>) {
    && |live| == |slots|
    && (forall i | 0 <= i < |live| :: slots[i] in store && store[slots[i]] == live[i])
    && (forall i, j | 0 <= i < j < |slots| :: slots[i] != slots[j])
  }

  // An open upvalue belongs to the cell of its slot.
  ghost predicate OpenShow(open: seq<ObjUpvalue>, at: seq<nat>, slots: seq<nat>, cells: map<ObjUpvalue, nat>) {
    && |open| == |at|
    && forall i | 0 <= i < |open| ::
         open[i] in cells && at[i] < |slots| && cells[open[i]] == slots[at[i]]
  }

  // A closed upvalue shows its cell, which has left the stack.
  ghost predicate ClosedShow(open: seq<ObjUpvalue>, slots: seq<nat>, cells: map<ObjUpvalue, nat>, store: map<nat,
      Value>)
    reads cells.Keys
  {
    forall u | u in cells && u !in open :: u.location == Own && cells[u] in store && store[cells[u]] == u.closed
        && cells[u] !in slots
  }

  ghost predicate OneEach(cells: map<ObjUpvalue, nat>) {
    forall u, v | u in cells && v in cells && cells[u] == cells[v] :: u == v
  }

  lemma SlotsPush(live: seq<Value>, slots: seq<nat>, store: map<nat, Value>, cell: nat, v: Value)
    requires SlotsShow(live, slots, store) && cell !in store
    ensures SlotsShow(live + [v], slots + [cell], store[cell := v])
  {
  }

  lemma SlotsSet(live: seq<Value>, slots: seq<nat>, store: map<nat, Value>, i: nat, v: Value)
    requires SlotsShow(live, slots, store) && i < |live|
    ensures SlotsShow(live[i := v], slots, store[slots[i] := v])
  {
  }

  lemma SlotsDrop(live: seq<Value>, slots: seq<nat>, store: map<nat, Value>, k: nat)
    requires SlotsShow(live, slots, store) && k <= |live|
    ensures SlotsShow(live[..k], slots[..k], store)
  {
  }

  lemma SlotsOther(live: seq<Value>, slots: seq<nat>, store: map<nat, Value>, cell: nat, v: Value)
    requires SlotsShow(live, slots, store) && cell !in slots
    ensures SlotsShow(live, slots, store[cell := v])
  {
  }

  class Machine {
    const stack: array<Value>
    var sp: nat
    var openUpvalues: ObjUpvalue?

    ghost var open: seq<ObjUpvalue>
    ghost var at: seq<nat>
    // The cell of each live slot and of each upvalue, and what the cells hold.
    ghost var slots: seq<nat>
    ghost var cells: map<ObjUpvalue, nat>
    ghost var store: map<nat, Value>

    // Every way to a variable shows the value of its cell. The last slot may be one that is still to be pushed.
    ghost predicate Shows()
      reads this, stack, open, cells.Keys
    {
      && |slots| <= stack.Length
      && Lists(openUpvalues, open, at) && Descending(at, |slots|)
      && SlotsShow(stack[..|slots|], slots, store)
      && OpenShow(open, at, slots, cells) && ClosedShow(open, slots, cells, store) && OneEach(cells)
    }

    ghost predicate Valid()
      reads this, stack, open, cells.Keys
    {
      |slots| == sp && Shows()
    }

    constructor (size: nat)
      ensures Valid() && stack.Length == size && fresh(stack) && slots == [] && cells == map[] && store == map[]
          && open == []
    {
      stack := new Value[size](_ => Null);
      sp, openUpvalues := 0, null;
      open, at, slots, cells, store := [], [], [], map[], map[];
    }

    // ----- slots -----

    method Push(v: Value, ghost cell: nat)
      requires Valid() && sp < stack.Length && cell !in store
      modifies this`sp, this`slots, this`store, stack
      ensures Valid() && slots == old(slots) + [cell] && store == old(store)[cell := v] && sp == old(sp) + 1
    {
      hide SlotsShow, OneEach, Lists, OpenShow, Descending;
      SlotsPush(stack[..sp], slots, store, cell, v);
      OpenPush(open, at, slots, cells, cell);
      stack[sp] := v;
      sp := sp + 1;
      assert stack[..sp] == old(stack[..sp]) + [v];
      slots, store := slots + [cell], store[cell := v];
    }

    // Dropping a slot that no upvalue refers to.
    method Pop() returns (v: Value)
      requires Valid() && sp > 0 && sp - 1 !in at
      modifies this`sp, this`slots
      ensures Valid() && slots == old(slots[..sp - 1]) && sp == old(sp) - 1 && v == store[old(slots[sp - 1])]
    {
      hide SlotsShow, OneEach, Lists, OpenShow, ClosedShow, Descending;
      v := GetLocal(sp - 1);
      SlotsDrop(stack[..sp], slots, store, sp - 1);
      OpenBelow(open, at, slots, cells, sp - 1);
      ClosedFewer(open, slots, cells, store, sp - 1);
      sp := sp - 1;
      assert stack[..sp] == old(stack[..sp])[..sp];
      slots := slots[..sp];
    }

    // OP_POP where no closure has the slot.
    method DropUncaptured()
      requires Valid()
      modifies this`sp, this`slots
      ensures Valid() && sp <= old(sp)
      ensures slots == if old(slots) != [] && old(slots[|slots| - 1]) !in cells.Values then old(slots[..|slots| - 1])
                       else old(slots)
    {
      TopOpen(at, sp);
      ListsHead(openUpvalues, open, at);
      if sp > 0 {
        CapturedIsOpen(stack[..sp], open, at, slots, cells, store, sp - 1);
        hide SlotsShow, ClosedShow, OneEach, Lists, Descending, OpenShow;
        if openUpvalues == null || openUpvalues.location != OnStack(sp - 1) {
          var dropped := Pop();
        }
      }
    }

    method GetLocal(i: nat) returns (v: Value)
      requires Valid() && i < sp
      ensures slots[i] in store && v == store[slots[i]]
    {
      v := stack[i];
    }

    method SetLocal(i: nat, v: Value)
      requires Valid() && i < sp
      modifies this`store, stack
      ensures Valid() && store == old(store)[slots[i] := v]
    {
      SlotsSet(stack[..sp], slots, store, i, v);
      hide SlotsShow, OneEach, Lists;
      stack[i] := v;
      assert stack[..sp] == old(stack[..sp])[i := v];
      store := store[slots[i] := v];
    }

    // ----- upvalues -----

    lemma OpenAt(u: ObjUpvalue) returns (i: nat)
      requires Valid() && u in cells && u.location.OnStack?
      ensures i < |at| && open[i] == u && u.location.slot == at[i] < sp && cells[u] == slots[at[i]]
    {
      i :| i < |open| && open[i] == u;
    }

    method GetUpvalue(u: ObjUpvalue) returns (v: Value)
      requires Valid() && u in cells
      ensures cells[u] in store && v == store[cells[u]]
    {
      match u.location {
        case OnStack(slot) =>
          ghost var i := OpenAt(u);
          v := GetLocal(slot);
        case Own => v := u.closed;
      }
    }

    method SetUpvalue(u: ObjUpvalue, v: Value)
      requires Valid() && u in cells
      modifies this`store, stack, u`closed
      ensures Valid() && store == old(store)[cells[u] := v]
    {
      match u.location {
        case OnStack(slot) =>
          ghost var i := OpenAt(u);
          hide SlotsShow, OneEach, Lists, ClosedShow, OpenShow;
          SetLocal(slot, v);
        case Own => SetClosed(u, v);
      }
    }

    method SetClosed(u: ObjUpvalue, v: Value)
      requires Valid() && u in cells && u.location == Own
      modifies this`store, u`closed
      ensures Valid() && store == old(store)[cells[u] := v]
    {
      SlotsOther(stack[..sp], slots, store, cells[u], v);
      assert u !in open;
      assert forall w | w in cells && w != u :: cells[w] != cells[u];
      hide SlotsShow, OneEach, Lists, Descending, OpenShow;
      ghost var before := store;
      u.closed := v;
      store := store[cells[u] := v];
      forall w | w in cells && w !in open
        ensures w.location == Own && cells[w] in store && store[cells[w]] == w.closed && cells[w] !in slots
      {
        assert w != u ==> before[cells[w]] == w.closed;
      }
    }

    // The upvalue of a slot: the one there is, or a new one put in its place in the list.
    method CaptureUpvalue(local: nat) returns (u: ObjUpvalue)
      requires Shows() && local < |slots|
      modifies this`openUpvalues, this`open, this`at, this`cells, (set v | v in open)
      ensures Shows() && u in cells && cells == old(cells)[u := slots[local]]
      ensures u in old(cells) <==> local in old(at)
      ensures (u !in old(cells) ==> fresh(u)) && Grows(old(cells), cells)
      ensures forall v | v in open :: v in old(open) || (v == u && u !in old(cells))
    {
      hide SlotsShow, ClosedShow, OneEach, Lists, Descending, OpenShow;
      ListsHead(openUpvalues, open, at);
      var previous: ObjUpvalue? := null;
      var current := openUpvalues;
      ghost var k := 0;
      while current != null && current.location.slot > local
        modifies {}
        invariant k <= |open| && current == (if k < |open| then open[k] else null)
        invariant current != null ==> current.location == OnStack(at[k])
        invariant previous == (if k > 0 then open[k - 1] else null)
        invariant forall i | 0 <= i < k :: at[i] > local
        decreases |open| - k
      {
        ListsAt(openUpvalues, open, at, k);
        if k + 1 < |open| {
          ListsAt(openUpvalues, open, at, k + 1);
        }
        previous := current;
        current := current.next;
        k := k + 1;
      }
      if current != null && current.location == OnStack(local) {
        FoundAt(open, at, slots, cells, k);
        return current;
      }
      Inserted(at, |slots|, local, k);
      AllKnown(open, at, slots, cells);
      u := InsertUpvalue(local, previous, current, k);
    }

    method InsertUpvalue(local: nat, previous: ObjUpvalue?, current: ObjUpvalue?, ghost k: nat) returns (u: ObjUpvalue)
      requires Shows() && local < |slots| && k <= |open|
      requires current == (if k < |open| then open[k] else null) && previous == (if k > 0 then open[k - 1] else null)
      requires (forall i | 0 <= i < k :: at[i] > local) && (k < |open| ==> at[k] < local)
      modifies this`openUpvalues, this`open, this`at, this`cells, (set v | v in open)
      ensures Shows() && fresh(u) && cells == old(cells)[u := slots[local]]
      ensures forall v | v in open :: v in old(open) || (v == u && u !in old(cells))
    {
      hide SlotsShow, Descending, OpenShow, OneEach, Lists;
      ListsHead(openUpvalues, open, at);
      u := new ObjUpvalue(local);
      assert u !in open && u !in cells;
      LinkIn(u, local, previous, current, k);
      Register(u, local, k);
    }

    // The new upvalue belongs to the cell of its slot.
    ghost method Register(u: ObjUpvalue, local: nat, k: nat)
      requires local < |slots| <= stack.Length && k <= |open| == |at| && u !in cells && u !in open
      requires Lists(openUpvalues, open[..k] + [u] + open[k..], at[..k] + [local] + at[k..])
      requires Descending(at, |slots|) && SlotsShow(stack[..|slots|], slots, store) && OpenShow(open, at, slots, cells)
      requires ClosedShow(open, slots, cells, store) && OneEach(cells)
      requires (forall i | 0 <= i < k :: at[i] > local) && (k < |open| ==> at[k] < local)
      modifies this`open, this`at, this`cells
      ensures Shows() && cells == old(cells)[u := slots[local]]
      ensures forall v | v in open :: v in old(open) || (v == u && u !in old(cells))
    {
      hide SlotsShow, Descending, OpenShow, OneEach, Lists;
      Inserted(at, |slots|, local, k);
      CellUnused(stack[..|slots|], open, at, slots, cells, store, local);
      ghost var before, beforeAt := open, at;
      open, at := open[..k] + [u] + open[k..], at[..k] + [local] + at[k..];
      OpenInserted(before, beforeAt, open, at, slots, cells, u, local, k);
      OneMore(cells, u, slots[local]);
      assert forall v :: v in open <==> v in before || v == u;
      cells := cells[u := slots[local]];
    }

    // The pointers of vm_capture_upvalue.
    method LinkIn(u: ObjUpvalue, local: nat, previous: ObjUpvalue?, current: ObjUpvalue?, ghost k: nat)
      requires Lists(openUpvalues, open, at) && u !in open && u.location == OnStack(local) && k <= |open|
      requires current == (if k < |open| then open[k] else null) && previous == (if k > 0 then open[k - 1] else null)
      modifies this`openUpvalues, u, (set v | v in open)
      ensures forall v | v in open || v == u :: v.location == old(v.location) && v.closed == old(v.closed)
      ensures Lists(openUpvalues, open[..k] + [u] + open[k..], at[..k] + [local] + at[k..])
    {
      hide Lists, AllDistinct, Spliced, After;
      ListsHead(openUpvalues, open, at);
      ghost var now, nowAt := open[..k] + [u] + open[k..], at[..k] + [local] + at[k..];
      OldLinks(openUpvalues, open, at, k);
      Splice(open, at, u, local, k, now, nowAt);
      label linked:
      u.next := current;
      if previous == null {
        openUpvalues := u;
      } else {
        previous.next := u;
      }
      forall i | 0 <= i < |now| ensures now[i].next == After(now, i) && now[i].location == OnStack(nowAt[i]) {
        SplicedAt(open, at, u, local, k, now, nowAt, i);
        if i != k {
          var j := if i < k then i else i - 1;
          assert j != k - 1 ==> open[j].next == old@linked(open[j].next);
          assert open[j].location == old@linked(open[j].location);
        }
      }
      ShowsLists(openUpvalues, now, nowAt);
    }

    // The slots from base on are about to die: an upvalue may be closed already though its slot is still there,
    // or still be open though its slot lies above sp.
    ghost predicate Dying(base: nat)
      reads this, stack, open, cells.Keys
    {
      && base <= sp <= |slots| <= stack.Length
      && Lists(openUpvalues, open, at) && Descending(at, |slots|)
      && SlotsShow(stack[..|slots|], slots, store)
      && OpenShow(open, at, slots, cells) && ClosedShow(open, slots[..base], cells, store) && OneEach(cells)
    }

    // vm_close_upvalues: moves the cells of the slots from `last` on into their upvalues.
    method CloseUpvalues(last: nat, ghost base: nat)
      requires Dying(base) && base <= last
      modifies this`openUpvalues, this`open, this`at, (set v | v in open)
      ensures Dying(base)
      ensures exists k: nat ::
                && k <= |old(at)| && at == old(at)[k..] && open == old(open)[k..]
                && forall i | 0 <= i < k :: old(at)[i] >= last
      ensures forall a :: a in at <==> a in old(at) && a < last
    {
      hide SlotsShow, OneEach, ClosedShow, Lists, OpenShow, Descending;
      ghost var k, before, beforeAt := 0, open, at;
      ListsHead(openUpvalues, open, at);
      while openUpvalues != null && openUpvalues.location.slot >= last
        invariant k <= |before| == |beforeAt| && open == before[k..] && at == beforeAt[k..] && Dying(base)
        invariant forall i | 0 <= i < k :: beforeAt[i] >= last
        invariant openUpvalues == (if open == [] then null else open[0])
        invariant openUpvalues != null ==> openUpvalues.location == OnStack(at[0])
        decreases |before| - k
      {
        assert before[k..][1..] == before[k + 1..] && beforeAt[k..][1..] == beforeAt[k + 1..];
        OpenRest(open, at, slots, cells, |slots|);
        CloseFirst(base);
        ListsHead(openUpvalues, open, at);
        k := k + 1;
      }
      ListsHead(openUpvalues, open, at);
      CutAt(beforeAt, |slots|, last, k);
    }

    // The body of the loop in vm_close_upvalues.
    method CloseFirst(ghost base: nat)
      requires base <= |slots| <= stack.Length && SlotsShow(stack[..|slots|], slots, store)
      requires openUpvalues != null && Lists(openUpvalues, open, at) && Descending(at, |slots|)
          && OpenShow(open, at, slots, cells)
      requires at[0] >= base && ClosedShow(open, slots[..base], cells, store)
      modifies this`openUpvalues, this`open, this`at, openUpvalues
      ensures open == old(open[1..]) && at == old(at[1..]) && Lists(openUpvalues, open, at)
      ensures ClosedShow(open, slots[..base], cells, store)
    {
      SlotDead(stack[..|slots|], slots, store, at[0], base);
      ghost var was, wasAt := open, at;
      OldLinks(openUpvalues, was, wasAt, 1);
      RestOf(was, wasAt);
      hide SlotsShow, Lists, AllDistinct, After;
      var upvalue := openUpvalues;
      assert upvalue == was[0] && upvalue in cells && cells[upvalue] == slots[wasAt[0]];
      hide OpenShow, Descending;
      upvalue.closed := stack[upvalue.location.slot];
      upvalue.location := Own;
      openUpvalues := upvalue.next;
      open, at := open[1..], at[1..];
      forall i | 0 <= i < |open| ensures open[i].location == OnStack(at[i]) && open[i].next == After(open, i) {
        assert open[i] == was[i + 1] && open[i] != upvalue && at[i] == wasAt[i + 1];
      }
      ShowsLists(openUpvalues, open, at);
      forall u | u in cells && u !in open
        ensures u.location == Own && cells[u] in store && store[cells[u]] == u.closed && cells[u] !in slots[..base]
      {
        if u != upvalue {
          assert u !in was;
        }
      }
    }

    ghost method BeginDying(base: nat)
      requires Valid() && base <= sp
      ensures Dying(base)
    {
      hide SlotsShow, OneEach, ClosedShow, Lists, OpenShow, Descending;
      ClosedFewer(open, slots, cells, store, base);
    }

    // Once no upvalue is open on them, the slots from sp on are dead.
    ghost method Settle()
      requires Dying(sp) && forall a | a in at :: a < sp
      modifies this`slots
      ensures Valid() && slots == old(slots[..sp])
    {
      AllBelow(at, |slots|, sp);
      hide SlotsShow, OneEach, ClosedShow, Lists, OpenShow, Descending;
      SlotsDrop(stack[..|slots|], slots, store, sp);
      OpenBelow(open, at, slots, cells, sp);
      assert stack[..|slots|][..sp] == stack[..sp];
      slots := slots[..sp];
      assert |slots| == sp && SlotsShow(stack[..|slots|], slots, store);
    }

    // The slots from n on die, and the variables in them live on in their upvalues.
    method CloseDown(n: nat)
      requires Valid() && n <= sp
      modifies this`openUpvalues, this`open, this`at, this`slots, this`sp, (set v | v in open)
      ensures Valid() && slots == old(slots[..n]) && sp == n
      ensures forall v | v in open :: v in old(open)
    {
      hide SlotsShow, OneEach, ClosedShow, Lists, OpenShow, Descending;
      BeginDying(n);
      CloseUpvalues(n, n);
      sp := n;
      Settle();
    }

    // OP_CLOSE_UPVALUE.
    method CloseTop()
      requires Valid() && sp > 0
      modifies this`openUpvalues, this`open, this`at, this`slots, this`sp, (set v | v in open)
      ensures Valid() && slots == old(slots[..sp - 1]) && sp == old(sp) - 1
      ensures forall v | v in open :: v in old(open)
    {
      CloseDown(sp - 1);
    }

    // OP_RETURN: the slots of the frame die, and the result takes the place of the first.
    method Return(base: nat, ghost cell: nat)
      requires Valid() && base < sp && cell !in store
      modifies this`openUpvalues, this`open, this`at, this`slots, this`sp, this`store, (set v | v in open), stack
      ensures Valid() && slots == old(slots[..base]) + [cell] && store == old(store)[cell := old(store[slots[sp - 1]])]
    {
      hide SlotsShow, OneEach, ClosedShow, Lists, OpenShow;
      var returned := GetLocal(sp - 1);
      CloseDown(base);
      Push(returned, cell);
    }

    // The slot that will be pushed next is the variable in this cell, whatever it holds now.
    ghost method Reserve(cell: nat)
      requires Valid() && sp < stack.Length && cell !in store
      modifies this`slots, this`store
      ensures Shows() && slots == old(slots) + [cell] && store == old(store)[cell := stack[sp]]
    {
      hide SlotsShow, OneEach, Lists, OpenShow, Descending;
      SlotsPush(stack[..sp], slots, store, cell, stack[sp]);
      OpenPush(open, at, slots, cells, cell);
      assert stack[..sp + 1] == stack[..sp] + [stack[sp]];
      slots, store := slots + [cell], store[cell := stack[sp]];
    }

    // vm_push, into a slot that is a variable already.
    method PushReserved(v: Value)
      requires Shows() && |slots| == sp + 1
      modifies this`sp, this`store, stack
      ensures Valid() && store == old(store)[slots[sp - 1] := v] && sp == old(sp) + 1
    {
      hide SlotsShow, ClosedShow, OneEach, Lists, Descending, OpenShow;
      sp := sp + 1;
      SetLocal(sp - 1, v);
    }

    /** OP_MAKE_CLOSURE: each descriptor names a slot of the running frame or an upvalue of its closure, and the closure
        is then pushed. A function that uses its own name names the slot that it is pushed to. */
    method MakeClosure(closure: Value, descriptors: seq<Descriptor>, base: nat, captured: seq<ObjUpvalue>,
        ghost cell: nat) returns (upvalues: seq<ObjUpvalue>)
      requires Valid() && sp < stack.Length && cell !in store && forall u | u in captured :: u in cells
      requires Within(descriptors, base, sp + 1, |captured|)
      modifies this`openUpvalues, this`open, this`at, this`cells, this`slots, this`store, this`sp, stack,
          (set v | v in open)
      ensures Valid() && slots == old(slots) + [cell] && store == old(store)[cell := closure] && sp == old(sp) + 1
      ensures Grows(old(cells), cells) && forall u | u in cells :: u in old(cells) || (u in upvalues && fresh(u))
      ensures Gives(descriptors, base, slots, captured, old(cells), cells, upvalues)
    {
      hide SlotsShow, ClosedShow, OneEach, Lists, Descending, OpenShow, Within, Gives;
      Reserve(cell);
      ghost var reserved := store;
      upvalues := [];
      GivesNothing(descriptors, base, slots, captured, old(cells), cells);
      var i := 0;
      while i < |descriptors|
        invariant i <= |descriptors| && Shows() && Grows(old(cells), cells)
        invariant slots == old(slots) + [cell] && sp == old(sp) && store == reserved
        invariant forall u | u in open :: u in old(open) || fresh(u)
        invariant forall u | u in cells :: u in old(cells) || (u in upvalues && fresh(u))
        invariant Gives(descriptors[..i], base, slots, captured, old(cells), cells, upvalues)
      {
        ghost var before := cells;
        var d := descriptors[i];
        WithinAt(descriptors, base, sp + 1, |captured|, i);
        var u: ObjUpvalue;
        if d.isLocal {
          u := CaptureUpvalue(base + d.index);
        } else {
          u := captured[d.index];
          assert u in captured;
        }
        GivesNext(descriptors, base, slots, captured, old(cells), before, cells, upvalues, i, u);
        upvalues := upvalues + [u];
        i := i + 1;
      }
      assert descriptors[..i] == descriptors;
      PushReserved(closure);
      assert slots[sp - 1] == cell;
    }

    // The slots from base on that an upvalue is open on.
    ghost function OpenFrom(base: nat): set<nat>
      reads this
    {
      set a | a in at && a >= base :: a - base
    }

    /** The instructions at the end of a block, in the order of its locals: OP_CLOSE_UPVALUE for one that was
        captured, OP_POP for another. When they leave no upvalue open on a slot that is gone, every variable of
        the block lives on; otherwise the stack and the list of upvalues no longer agree. */
    method ExitBlock(captured: seq<bool>)
      requires Valid() && |captured| <= sp
      modifies this`openUpvalues, this`open, this`at, this`slots, this`sp, (set v | v in open)
      ensures sp == old(sp) - |captured| && OpenFrom(sp) == LeftOpen(captured, 0, old(OpenFrom(sp - |captured|)))
      ensures Valid() <==> OpenFrom(sp) == {}
      ensures Valid() ==> slots == old(slots[..sp - |captured|])
      ensures forall first: nat, last: nat | Extremes(captured, first, last)
          && old(OpenFrom(sp - |captured|)) == CapturedSlots(captured) ::
                Valid() <==> first + last >= |captured| - 1
    {
      hide SlotsShow, ClosedShow, OneEach, Lists, Descending, OpenShow;
      forall first: nat, last: nat | Extremes(captured, first, last) {
        MixedBlockCloses(captured, first, last);
      }
      ghost var base := sp - |captured|;
      BeginDying(base);
      var i := 0;
      while i < |captured|
        invariant i <= |captured| && Dying(base) && sp == old(sp) - i && slots == old(slots)
        invariant forall v | v in open :: v in old(open)
        invariant LeftOpen(captured, i, OpenFrom(base)) == LeftOpen(captured, 0, old(OpenFrom(base)))
      {
        if captured[i] {
          ghost var before := OpenFrom(base);
          CloseUpvalues(sp - 1, base);
          assert OpenFrom(base) == set s | s in before && s < |captured| - 1 - i;
        }
        sp := sp - 1;
        i := i + 1;
      }
      if OpenFrom(sp) == {} {
        assert forall a | a in at && a >= sp :: a - sp in OpenFrom(sp);
        Settle();
      } else {
        ghost var s :| s in OpenFrom(sp);
        NotAbove(at, sp, s + sp);
      }
    }

    // ----- runs -----

    // The cells that the running code can see, with the upvalues it holds in `held`.
    ghost function View(held: seq<ObjUpvalue>, next: nat): Cells
      reads this
      requires forall u | u in held :: u in cells
    {
      Cells(slots, CellsOf(cells, held), cells.Values, store, next)
    }

    lemma CellKnown(u: ObjUpvalue)
      requires Valid() && u in cells
      ensures cells[u] in store
    {
      if u in open {
        var i := OpenAt(u);
      }
    }

    /** Any sequence of pushes, reads and writes of locals, captures, reads and writes through closures and
        closings sees exactly what it would see on plain cells. */
    method Run(actions: seq<Action>, ghost next: nat) returns (seen: seq<Value>)
      requires Ready([], next) && sp + |actions| <= stack.Length
      modifies this`openUpvalues, this`open, this`at, this`slots, this`sp, this`store, this`cells, stack, cells.Keys
      ensures Valid() && seen == RunCells(old(View([], next)), actions).1
    {
      hide SlotsShow, ClosedShow, OneEach, Lists, Descending, OpenShow;
      var held: seq<ObjUpvalue> := [];
      ghost var fresh1 := next;
      seen := [];
      ghost var start := View([], next);
      var k := 0;
      assert actions[..0] == [] && RunCells(start, []) == (start, []);
      while k < |actions|
        invariant k <= |actions| && Ready(held, fresh1) && sp <= old(sp) + k
        invariant forall u | u in cells :: u in old(cells) || fresh(u)
        invariant RunCells(start, actions[..k]) == (View(held, fresh1), seen)
      {
        RunLast(start, actions[..k], actions[k]);
        assert actions[..k + 1] == actions[..k] + [actions[k]];
        var value: Option<Value>;
        held, value, fresh1 := Do(actions[k], held, fresh1);
        seen := seen + (if value.Some? then [value.value] else []);
        k := k + 1;
      }
      assert actions[..k] == actions;
    }

    // The running code holds these upvalues, and cells from `next` on are unused.
    ghost predicate Ready(held: seq<ObjUpvalue>, next: nat)
      reads this, stack, open, cells.Keys
    {
      Valid() && (forall c | c in store :: c < next) && forall u | u in held :: u in cells
    }

    // A closure made by the code that holds these upvalues, itself running in a closure with those of them in `from`.
    method HoldClosure(closure: Value, descriptors: seq<Descriptor>, base: nat, from: seq<nat>, held: seq<ObjUpvalue>,
        ghost next: nat) returns (held': seq<ObjUpvalue>, ghost next': nat)
      requires Ready(held, next) && sp < stack.Length
      modifies this`openUpvalues, this`open, this`at, this`cells, this`slots, this`store, this`sp, stack,
          (set v | v in open)
      ensures Ready(held', next') && sp <= old(sp) + 1 && forall u | u in cells :: u in old(cells) || fresh(u)
      ensures (View(held', next'), None) ==
              StepCells(old(View(held, next)), Action.Closure(closure, descriptors, base, from))
    {
      hide SlotsShow, ClosedShow, OneEach, Lists, Descending, OpenShow, Within, Gives, Named;
      held', next' := held, next;
      if !Closes(descriptors, base, from, sp, |held|) {
        return;
      }
      FromHeld(descriptors, base, from, sp, held);
      var captured := seq(|from|, k requires 0 <= k < |from| => assert from[k] in from; held[from[k]]);
      var upvalues := MakeClosure(closure, descriptors, base, captured, next);
      held', next' := held + upvalues, next + 1;
      NamedCells(old(cells), cells, descriptors, base, from, slots, held, captured, upvalues);
    }

    method HoldSlot(i: nat, held: seq<ObjUpvalue>, ghost next: nat) returns (held': seq<ObjUpvalue>)
      requires Ready(held, next)
      modifies this`openUpvalues, this`open, this`at, this`cells, (set v | v in open)
      ensures Ready(held', next) && forall u | u in cells :: u in old(cells) || fresh(u)
      ensures (View(held', next), None) == StepCells(old(View(held, next)), Capture(i))
    {
      hide SlotsShow, ClosedShow, OneEach, Lists, Descending, OpenShow;
      held' := held;
      if i < sp {
        var u := CaptureUpvalue(i);
        CellsOfGrows(old(cells), cells, held, u);
        ValuesMore(old(cells), u, slots[i]);
        held' := held + [u];
      }
    }

    method ReadHeld(k: nat, held: seq<ObjUpvalue>, ghost next: nat) returns (value: Option<Value>)
      requires Ready(held, next)
      ensures (View(held, next), value) == StepCells(View(held, next), Read(k))
    {
      hide SlotsShow, ClosedShow, OneEach, Lists, Descending, OpenShow;
      value := None;
      if k < |held| {
        assert held[k] in held;
        CellKnown(held[k]);
        var v := GetUpvalue(held[k]);
        value := Some(v);
      }
    }

    method WriteHeld(k: nat, v: Value, held: seq<ObjUpvalue>, ghost next: nat)
      requires Ready(held, next)
      modifies this`store, stack, cells.Keys
      ensures Ready(held, next)
      ensures (View(held, next), None) == StepCells(old(View(held, next)), Write(k, v))
    {
      hide SlotsShow, ClosedShow, OneEach, Lists, Descending, OpenShow;
      if k < |held| {
        assert held[k] in held;
        CellKnown(held[k]);
        SetUpvalue(held[k], v);
      }
    }

    method DoReturn(base: nat, held: seq<ObjUpvalue>, ghost next: nat) returns (ghost next': nat)
      requires Ready(held, next) && sp < stack.Length
      modifies this`openUpvalues, this`open, this`at, this`slots, this`sp, this`store, (set v | v in open), stack
      ensures Ready(held, next') && sp <= old(sp)
      ensures (View(held, next'), None) == StepCells(old(View(held, next)), Action.Return(base))
    {
      SlotsKnown(stack[..sp], slots, store);
      hide SlotsShow, ClosedShow, OneEach, Lists, Descending, OpenShow, CellsOf;
      next' := next;
      if base < sp {
        assert slots[sp - 1] in store;
        Return(base, next);
        next' := next + 1;
      }
    }

    method DoPush(v: Value, held: seq<ObjUpvalue>, ghost next: nat) returns (ghost next': nat)
      requires Ready(held, next) && sp < stack.Length
      modifies this`sp, this`slots, this`store, stack
      ensures Ready(held, next') && sp == old(sp) + 1
      ensures (View(held, next'), None) == StepCells(old(View(held, next)), Action.Push(v))
    {
      hide SlotsShow, ClosedShow, OneEach, Lists, Descending, OpenShow, CellsOf;
      Push(v, next);
      next' := next + 1;
    }

    method DoPop(held: seq<ObjUpvalue>, ghost next: nat)
      requires Ready(held, next)
      modifies this`sp, this`slots
      ensures Ready(held, next) && sp <= old(sp)
      ensures (View(held, next), None) == StepCells(old(View(held, next)), Action.Pop)
    {
      hide SlotsShow, ClosedShow, OneEach, Lists, Descending, OpenShow, CellsOf;
      DropUncaptured();
    }

    method DoGet(i: nat, held: seq<ObjUpvalue>, ghost next: nat) returns (value: Option<Value>)
      requires Ready(held, next)
      ensures (View(held, next), value) == StepCells(View(held, next), Action.Get(i))
    {
      hide SlotsShow, ClosedShow, OneEach, Lists, Descending, OpenShow, CellsOf;
      value := None;
      if i < sp {
        var v := GetLocal(i);
        value := Some(v);
      }
    }

    method DoSet(i: nat, v: Value, held: seq<ObjUpvalue>, ghost next: nat)
      requires Ready(held, next)
      modifies this`store, stack
      ensures Ready(held, next)
      ensures (View(held, next), None) == StepCells(old(View(held, next)), Action.Set(i, v))
    {
      SlotsKnown(stack[..sp], slots, store);
      hide SlotsShow, ClosedShow, OneEach, Lists, Descending, OpenShow, CellsOf;
      if i < sp {
        SetLocal(i, v);
      }
    }

    method DoClose(n: nat, held: seq<ObjUpvalue>, ghost next: nat)
      requires Ready(held, next)
      modifies this`openUpvalues, this`open, this`at, this`slots, this`sp, (set v | v in open)
      ensures Ready(held, next) && sp <= old(sp)
      ensures (View(held, next), None) == StepCells(old(View(held, next)), Action.Close(n))
    {
      hide SlotsShow, ClosedShow, OneEach, Lists, Descending, OpenShow, CellsOf;
      if n < sp {
        CloseDown(n);
      }
    }

    // One action; an action on something that is not there does nothing.
    method Do(action: Action, held: seq<ObjUpvalue>, ghost next: nat)
        returns (held': seq<ObjUpvalue>, value: Option<Value>, ghost next': nat)
      requires Ready(held, next) && sp < stack.Length
      modifies this`openUpvalues, this`open, this`at, this`slots, this`sp, this`store, this`cells, stack, cells.Keys
      ensures Ready(held', next') && sp <= old(sp) + 1 && forall u | u in cells :: u in old(cells) || fresh(u)
      ensures (View(held', next'), value) == StepCells(old(View(held, next)), action)
    {
      AllKnown(open, at, slots, cells);
      hide SlotsShow, ClosedShow, OneEach, Lists, Descending, OpenShow, StepCells, View;
      held', value, next' := held, None, next;
      match action {
        case Capture(i) => held' := HoldSlot(i, held, next);
        case Read(k) => value := ReadHeld(k, held, next);
        case Write(k, v) => WriteHeld(k, v, held, next);
        case Return(base) => next' := DoReturn(base, held, next);
        case Closure(closure, descriptors, base, from) =>
          held', next' := HoldClosure(closure, descriptors, base, from, held, next);
        case Push(v) => next' := DoPush(v, held, next);
        case Pop => DoPop(held, next);
        case Get(i) => value := DoGet(i, held, next);
        case Set(i, v) => DoSet(i, v, held, next);
        case Close(n) => DoClose(n, held, next);
      }
    }
  }

  // ----- plain cells -----

  ghost function CellsOf(cells: map<ObjUpvalue, nat>, held: seq<ObjUpvalue>): seq<nat>
    requires forall u | u in held :: u in cells
  {
    seq(|held|, i requires 0 <= i < |held| => cells[held[i]])
  }

  lemma CellsOfGrows(before: map<ObjUpvalue, nat>, after: map<ObjUpvalue, nat>, held: seq<ObjUpvalue>, u: ObjUpvalue)
    requires Grows(before, after) && (forall v | v in held :: v in before) && u in after
    ensures forall v | v in held + [u] :: v in after
    ensures CellsOf(after, held + [u]) == CellsOf(before, held) + [after[u]]
  {
    forall i | 0 <= i < |held| ensures after[held[i]] == before[held[i]] {
      assert held[i] in held;
    }
  }

  // Each upvalue has the cell that its descriptor names.
  ghost predicate Gives(descriptors: seq<Descriptor>, base: nat, slots: seq<nat>, captured: seq<ObjUpvalue>,
      before: map<ObjUpvalue, nat>, after: map<ObjUpvalue, nat>, upvalues: seq<ObjUpvalue>)
  {
    && |upvalues| == |descriptors|
    && forall i | 0 <= i < |descriptors| ::
         GivesOne(descriptors[i], base, slots, captured, before, after, upvalues[i])
  }

  ghost predicate GivesOne(d: Descriptor, base: nat, slots: seq<nat>, captured: seq<ObjUpvalue>,
      before: map<ObjUpvalue, nat>, after: map<ObjUpvalue, nat>, u: ObjUpvalue)
  {
    && u in after
    && if d.isLocal then base + d.index < |slots| && after[u] == slots[base + d.index]
       else d.index < |captured| && captured[d.index] in before && after[u] == before[captured[d.index]]
  }

  lemma GivesNothing(descriptors: seq<Descriptor>, base: nat, slots: seq<nat>, captured: seq<ObjUpvalue>,
      before: map<ObjUpvalue, nat>, after: map<ObjUpvalue, nat>)
    ensures Gives(descriptors[..0], base, slots, captured, before, after, [])
  {
  }

  lemma GivesNext(descriptors: seq<Descriptor>, base: nat, slots: seq<nat>, captured: seq<ObjUpvalue>,
      before: map<ObjUpvalue, nat>, now: map<ObjUpvalue, nat>, after: map<ObjUpvalue, nat>, upvalues: seq<ObjUpvalue>,
      i: nat, u: ObjUpvalue)
    requires i < |descriptors| && Gives(descriptors[..i], base, slots, captured, before, now, upvalues)
    requires Grows(now, after) && GivesOne(descriptors[i], base, slots, captured, before, after, u)
    ensures Gives(descriptors[..i + 1], base, slots, captured, before, after, upvalues + [u])
  {
    var more := upvalues + [u];
    forall j | 0 <= j < i + 1
      ensures GivesOne(descriptors[..i + 1][j], base, slots, captured, before, after, more[j])
    {
      if j < i {
        assert descriptors[..i][j] == descriptors[j];
        assert GivesOne(descriptors[..i][j], base, slots, captured, before, now, upvalues[j]);
      }
    }
  }

  lemma ValuesMore(cells: map<ObjUpvalue, nat>, u: ObjUpvalue, cell: nat)
    requires u in cells ==> cells[u] == cell
    ensures cells[u := cell].Values == cells.Values + {cell}
  {
    var after := cells[u := cell];
    forall c | c in cells.Values ensures c in after.Values {
      var v: ObjUpvalue :| v in cells && cells[v] == c;
      assert v in after && after[v] == c;
    }
    assert u in after && after[u] == cell;
  }

  lemma FromHeld(descriptors: seq<Descriptor>, base: nat, from: seq<nat>, slots: nat, held: seq<ObjUpvalue>)
    requires Closes(descriptors, base, from, slots, |held|)
    ensures forall k | 0 <= k < |from| :: from[k] < |held| && held[from[k]] in held
    ensures Within(descriptors, base, slots + 1, |from|)
  {
    hide Within;
    forall k | 0 <= k < |from| ensures from[k] < |held| && held[from[k]] in held {
      assert from[k] in from;
    }
  }

  lemma NamedCells(before: map<ObjUpvalue, nat>, after: map<ObjUpvalue, nat>, descriptors: seq<Descriptor>, base: nat,
      from: seq<nat>, slots: seq<nat>, held: seq<ObjUpvalue>, captured: seq<ObjUpvalue>, upvalues: seq<ObjUpvalue>)
    requires Grows(before, after) && (forall u | u in held :: u in before)
    requires slots != [] && Closes(descriptors, base, from, |slots| - 1, |held|)
    requires |captured| == |from| && forall k | 0 <= k < |from| :: from[k] < |held| && captured[k] == held[from[k]]
    requires Gives(descriptors, base, slots, captured, before, after, upvalues)
    requires forall u | u in after :: u in before || u in upvalues
    ensures forall u | u in held + upvalues :: u in after
    ensures var named := Named(descriptors, base, from, slots, CellsOf(before, held));
            && CellsOf(after, held + upvalues) == CellsOf(before, held) + named
            && after.Values == before.Values + (set c | c in named)
  {
    hide Within;
    var cells, named := CellsOf(before, held), Named(descriptors, base, from, slots, CellsOf(before, held));
    forall i | 0 <= i < |held| ensures held[i] in after && after[held[i]] == before[held[i]] {
      assert held[i] in held;
    }
    forall i | 0 <= i < |descriptors| ensures upvalues[i] in after && after[upvalues[i]] == named[i] {
      assert GivesOne(descriptors[i], base, slots, captured, before, after, upvalues[i]);
    }
    forall u | u in held + upvalues ensures u in after {
      assert u in held || u in upvalues;
    }
    assert CellsOf(after, held + upvalues) == cells + named;
    ValuesNamed(before, after, upvalues, named);
  }

  lemma ValuesNamed(before: map<ObjUpvalue, nat>, after: map<ObjUpvalue, nat>, upvalues: seq<ObjUpvalue>,
      named: seq<nat>)
    requires Grows(before, after) && forall u | u in after :: u in before || u in upvalues
    requires |upvalues| == |named|
    requires forall i | 0 <= i < |named| :: upvalues[i] in after && after[upvalues[i]] == named[i]
    ensures after.Values == before.Values + (set c | c in named)
  {
    forall c | c in after.Values ensures c in before.Values || c in named {
      var u: ObjUpvalue :| u in after && after[u] == c;
      if u !in before {
        var i :| 0 <= i < |upvalues| && upvalues[i] == u;
        assert named[i] == c;
      }
    }
    forall c | c in before.Values ensures c in after.Values {
      var u: ObjUpvalue :| u in before && before[u] == c;
      assert u in after && after[u] == c;
    }
    forall c | c in named ensures c in after.Values {
      var i :| 0 <= i < |named| && named[i] == c;
      assert upvalues[i] in after;
    }
  }

  // The top slot is captured exactly if the first of the open upvalues is on it.
  lemma TopOpen(at: seq<nat>, sp: nat)
    requires Descending(at, sp)
    ensures sp > 0 ==> (sp - 1 in at <==> at != [] && at[0] == sp - 1)
  {
  }

  // An upvalue that has the cell of a slot is open on it.
  lemma CapturedIsOpen(live: seq<Value>, open: seq<ObjUpvalue>, at: seq<nat>, slots: seq<nat>,
      cells: map<ObjUpvalue, nat>, store: map<nat, Value>, slot: nat)
    requires OpenShow(open, at, slots, cells) && slot < |slots|
    requires ClosedShow(open, slots, cells, store) && SlotsShow(live, slots, store)
    ensures slots[slot] in cells.Values <==> slot in at
  {
    if slots[slot] in cells.Values {
      var u: ObjUpvalue :| u in cells && cells[u] == slots[slot];
      assert slots[slot] in slots;
      var i :| 0 <= i < |open| && open[i] == u;
      assert at[i] in at;
    }
    if slot in at {
      var i :| 0 <= i < |at| && at[i] == slot;
      assert open[i] in cells && cells[open[i]] == slots[slot];
    }
  }

  lemma SlotsKnown(live: seq<Value>, slots: seq<nat>, store: map<nat, Value>)
    requires SlotsShow(live, slots, store)
    ensures forall i | 0 <= i < |slots| :: slots[i] in store
  {
  }

  datatype Action = Push(v: Value) | Pop | Get(slot: nat) | Set(slot: nat, v: Value) | Capture(slot: nat) | Read(k: nat)
    | Write(k: nat, v: Value) | Close(height: nat) | Return(base: nat)
    | Closure(closure: Value, descriptors: seq<Descriptor>, base: nat, from: seq<nat>)

  // Variables as cells: those in scope, those that closures hold, those that any closure ever held, and what they
  // contain.
  datatype Cells = Cells(slots: seq<nat>, held: seq<nat>, captured: set<nat>, store: map<nat, Value>, next: nat)

  ghost function StepCells(c: Cells, action: Action): (Cells, Option<Value>) {
    match action
    case Push(v) => (c.(slots := c.slots + [c.next], store := c.store[c.next := v], next := c.next + 1), None)
    case Get(i) => (c, if i < |c.slots| && c.slots[i] in c.store then Some(c.store[c.slots[i]]) else None)
    case Set(i, v) => (if i < |c.slots| then c.(store := c.store[c.slots[i] := v]) else c, None)
    // a captured slot is left to Close
    case Pop => (if c.slots != [] && c.slots[|c.slots| - 1] !in c.captured then c.(slots := c.slots[..|c.slots| - 1])
                 else c, None)
    case Capture(i) =>
      (if i < |c.slots| then c.(held := c.held + [c.slots[i]], captured := c.captured + {c.slots[i]}) else c, None)
    case Read(k) => (c, if k < |c.held| && c.held[k] in c.store then Some(c.store[c.held[k]]) else None)
    case Write(k, v) => (if k < |c.held| then c.(store := c.store[c.held[k] := v]) else c, None)
    case Close(n) => (if n < |c.slots| then c.(slots := c.slots[..n]) else c, None)
    case Return(base) =>
      if base < |c.slots| && c.slots[|c.slots| - 1] in c.store then
        (c.(slots := c.slots[..base] + [c.next], store := c.store[c.next := c.store[c.slots[|c.slots| - 1]]],
            next := c.next + 1), None)
      else (c, None)
    case Closure(v, ds, base, from) =>
      (if Closes(ds, base, from, |c.slots|, |c.held|) then WithClosure(c, v, ds, base, from) else c, None)
  }

  // A closure in a slot of its own, which its descriptors may name.
  function WithClosure(c: Cells, v: Value, descriptors: seq<Descriptor>, base: nat, from: seq<nat>): Cells
    requires Closes(descriptors, base, from, |c.slots|, |c.held|)
  {
    var slots := c.slots + [c.next];
    var named := Named(descriptors, base, from, slots, c.held);
    Cells(slots, c.held + named, c.captured + (set k | k in named), c.store[c.next := v], c.next + 1)
  }

  // The descriptors name slots of the frame at base and upvalues of its closure.
  predicate Within(descriptors: seq<Descriptor>, base: nat, slots: nat, upvalues: nat) {
    forall d | d in descriptors :: if d.isLocal then base + d.index < slots else d.index < upvalues
  }

  lemma WithinAt(descriptors: seq<Descriptor>, base: nat, slots: nat, upvalues: nat, i: nat)
    requires Within(descriptors, base, slots, upvalues) && i < |descriptors|
    ensures var d := descriptors[i]; if d.isLocal then base + d.index < slots else d.index < upvalues
  {
  }

  // They name slots, the one of the closure included, and upvalues of a closure that has these of the held ones.
  predicate Closes(descriptors: seq<Descriptor>, base: nat, from: seq<nat>, slots: nat, held: nat) {
    (forall k | k in from :: k < held) && Within(descriptors, base, slots + 1, |from|)
  }

  // The cells that descriptors name.
  function Named(descriptors: seq<Descriptor>, base: nat, from: seq<nat>, slots: seq<nat>,
      held: seq<nat>): (r: seq<nat>)
    requires slots != [] && Closes(descriptors, base, from, |slots| - 1, |held|)
  {
    seq(|descriptors|, i requires 0 <= i < |descriptors| =>
      WithinAt(descriptors, base, |slots|, |from|, i);
      var d := descriptors[i];
      if d.isLocal then slots[base + d.index] else assert from[d.index] in from; held[from[d.index]])
  }

  ghost function RunCells(c: Cells, actions: seq<Action>): (Cells, seq<Value>)
    decreases |actions|
  {
    if actions == [] then (c, [])
    else
      var (c1, v) := StepCells(c, actions[0]);
      var (c2, vs) := RunCells(c1, actions[1..]);
      (c2, (if v.Some? then [v.value] else []) + vs)
  }

  lemma {:induction false} RunLast(c: Cells, actions: seq<Action>, last: Action)
    ensures var (c1, vs) := RunCells(c, actions);
            var (c2, v) := StepCells(c1, last);
            RunCells(c, actions + [last]) == (c2, vs + (if v.Some? then [v.value] else []))
    decreases |actions|
  {
    hide StepCells;
    if actions == [] {
      assert [last][1..] == [] && [] + [last] == [last];
      var (c1, v) := StepCells(c, last);
      var value := if v.Some? then [v.value] else [];
      assert RunCells(c1, []) == (c1, []) && RunCells(c, []) == (c, []);
      assert value + [] == value && [] + value == value;
      assert RunCells(c, [last]) == (c1, value + []);
    } else {
      var (c1, v) := StepCells(c, actions[0]);
      RunLast(c1, actions[1..], last);
      assert (actions + [last])[1..] == actions[1..] + [last];
      var first, vs := (if v.Some? then [v.value] else []), RunCells(c1, actions[1..]).1;
      var (c3, v') := StepCells(RunCells(c1, actions[1..]).0, last);
      var more := if v'.Some? then [v'.value] else [];
      assert first + (vs + more) == (first + vs) + more;
    }
  }

  // ----- blocks of mixed locals -----

  /** The slots of a block with these locals that are still open after the instructions for locals i, i + 1,
      ...: instruction i drops the slot on top, and closes from there on if local i was captured. */
  function LeftOpen(captured: seq<bool>, i: nat, open: set<nat>): set<nat>
    requires i <= |captured|
    decreases |captured| - i
  {
    if i == |captured| then open
    else LeftOpen(captured, i + 1, if captured[i] then (set s | s in open && s < |captured| - 1 - i) else open)
  }

  lemma {:induction false} LeftOpenIs(captured: seq<bool>, i: nat, open: set<nat>, s: nat)
    requires i <= |captured|
    ensures s in LeftOpen(captured, i, open) <==> s in open && forall j | i <= j < |captured|
        && captured[j] :: s < |captured| - 1 - j
    decreases |captured| - i
  {
    if i < |captured| {
      LeftOpenIs(captured, i + 1, if captured[i] then (set s | s in open && s < |captured| - 1 - i) else open, s);
    }
  }

  function CapturedSlots(captured: seq<bool>): set<nat> {
    set i | 0 <= i < |captured| && captured[i]
  }

  // The first and the last captured local.
  predicate Extremes(captured: seq<bool>, first: nat, last: nat) {
    && first <= last < |captured| && captured[first] && captured[last]
    && forall i | 0 <= i < |captured| && captured[i] :: first <= i <= last
  }

  /** A block closes every captured local before its slot can be reused exactly when the first and the last
      captured local lie far enough from each other: the instructions run in the order of declaration, the
      stack shrinks in the opposite order. */
  lemma {:induction false} MixedBlockCloses(captured: seq<bool>, first: nat, last: nat)
    requires Extremes(captured, first, last)
    ensures LeftOpen(captured, 0, CapturedSlots(captured)) == {} <==> first + last >= |captured| - 1
  {
    var all := CapturedSlots(captured);
    var left := LeftOpen(captured, 0, all);
    LeftOpenIs(captured, 0, all, first);
    forall s | s in left ensures first + last < |captured| - 1 {
      LeftOpenIs(captured, 0, all, s);
    }
    if first + last < |captured| - 1 {
      assert first in left;
    }
  }

  // How a closure gets at a captured variable when it is made.
  datatype Descriptor = Descriptor(isLocal: bool, index: nat)

  // Upvalues keep their cells.
  ghost predicate Grows(before: map<ObjUpvalue, nat>, after: map<ObjUpvalue, nat>) {
    forall u | u in before :: u in after && after[u] == before[u]
  }

  lemma ListsAt(head: ObjUpvalue?, open: seq<ObjUpvalue>, at: seq<nat>, k: nat)
    requires Lists(head, open, at) && k < |open|
    ensures |at| == |open| && open[k].location == OnStack(at[k]) && open[k].next == After(open, k)
  {
  }

  lemma ListsHead(head: ObjUpvalue?, open: seq<ObjUpvalue>, at: seq<nat>)
    requires Lists(head, open, at)
    ensures |at| == |open| && head == (if open == [] then null else open[0])
    ensures head != null ==> head.location == OnStack(at[0])
  {
  }

  lemma OldLinks(head: ObjUpvalue?, open: seq<ObjUpvalue>, at: seq<nat>, k: nat)
    requires Lists(head, open, at) && k <= |open|
    ensures |open| == |at| && AllDistinct(open)
    ensures forall i | 0 <= i < |open| :: open[i].next == After(open, i) && open[i].location == OnStack(at[i])
    ensures forall i | 0 <= i < |open| && k > 0 && i != k - 1 :: open[i] != open[k - 1]
  {
  }

  lemma RestOf(open: seq<ObjUpvalue>, at: seq<nat>)
    requires open != [] && AllDistinct(open)
    ensures AllDistinct(open[1..]) && After(open, 0) == if open[1..] == [] then null else open[1..][0]
    ensures forall i | 0 <= i < |open[1..]| :: After(open[1..], i) == After(open, i + 1)
    ensures forall v :: v in open <==> v == open[0] || v in open[1..]
  {
    assert open == [open[0]] + open[1..];
  }

  lemma ShowsLists(head: ObjUpvalue?, open: seq<ObjUpvalue>, at: seq<nat>)
    requires |open| == |at| && head == (if open == [] then null else open[0]) && AllDistinct(open)
    requires forall i | 0 <= i < |open| :: open[i].next == After(open, i) && open[i].location == OnStack(at[i])
    ensures Lists(head, open, at)
  {
    hide AllDistinct, After;
  }

  // One list is the other with u put in at position k.
  predicate Spliced(open: seq<ObjUpvalue>, at: seq<nat>, u: ObjUpvalue, local: nat, k: nat, now: seq<ObjUpvalue>,
      nowAt: seq<nat>) {
    |open| == |at| && k <= |open| && now == open[..k] + [u] + open[k..] && nowAt == at[..k] + [local] + at[k..]
  }

  lemma Splice(open: seq<ObjUpvalue>, at: seq<nat>, u: ObjUpvalue, local: nat, k: nat, now: seq<ObjUpvalue>,
      nowAt: seq<nat>)
    requires |open| == |at| && k <= |open| && now == open[..k] + [u] + open[k..] && nowAt == at[..k] + [local] + at[k..]
    requires u !in open && AllDistinct(open)
    ensures |now| == |nowAt| == |open| + 1 && AllDistinct(now) && Spliced(open, at, u, local, k, now, nowAt)
    ensures now[0] == if k == 0 then u else open[0]
  {
    hide AllDistinct;
    forall i, j | 0 <= i < j < |now| ensures now[i] != now[j] {
      var i', j' := if i < k then i else i - 1, if j < k then j else j - 1;
      SplicedAt(open, at, u, local, k, now, nowAt, i);
      SplicedAt(open, at, u, local, k, now, nowAt, j);
      if i != k && j != k {
        DistinctAt(open, i', j');
      } else {
        assert i != k ==> open[i'] in open;
        assert j != k ==> open[j'] in open;
      }
    }
    AllDiffer(now);
  }

  lemma AllDiffer(open: seq<ObjUpvalue>)
    requires forall i, j | 0 <= i < j < |open| :: open[i] != open[j]
    ensures AllDistinct(open)
  {
  }

  lemma DistinctAt(open: seq<ObjUpvalue>, i: nat, j: nat)
    requires AllDistinct(open) && i < j < |open|
    ensures open[i] != open[j]
  {
  }

  lemma SplicedAt(open: seq<ObjUpvalue>, at: seq<nat>, u: ObjUpvalue, local: nat, k: nat, now: seq<ObjUpvalue>,
      nowAt: seq<nat>, i: nat)
    requires Spliced(open, at, u, local, k, now, nowAt) && i <= |open|
    ensures |now| == |nowAt| == |open| + 1 == |at| + 1 && k <= |open|
    ensures now[i] == (if i < k then open[i] else if i == k then u else open[i - 1])
    ensures nowAt[i] == (if i < k then at[i] else if i == k then local else at[i - 1])
    ensures After(now, i) == if i == k then (if k < |open| then open[k] else null) else if i + 1 == k then u
        else After(open, if i < k then i else i - 1)
  {
  }

  lemma OneMore(cells: map<ObjUpvalue, nat>, u: ObjUpvalue, cell: nat)
    requires OneEach(cells) && forall v | v in cells :: cells[v] != cell
    ensures OneEach(cells[u := cell])
  {
  }

  lemma OpenRest(open: seq<ObjUpvalue>, at: seq<nat>, slots: seq<nat>, cells: map<ObjUpvalue, nat>, sp: nat)
    requires OpenShow(open, at, slots, cells) && Descending(at, sp) && open != []
    ensures OpenShow(open[1..], at[1..], slots, cells) && Descending(at[1..], sp)
  {
  }

  lemma CutAt(at: seq<nat>, sp: nat, last: nat, k: nat)
    requires k <= |at| && Descending(at[k..], sp) && (forall i | 0 <= i < k :: at[i] >= last)
        && (k < |at| ==> at[k] < last)
    ensures forall a :: a in at[k..] <==> a in at && a < last
  {
    forall a | a in at && a < last ensures a in at[k..] {
      var i :| 0 <= i < |at| && at[i] == a;
      assert a == at[k..][i - k];
    }
    forall a | a in at[k..] ensures a in at && a < last {
      var i :| 0 <= i < |at[k..]| && at[k..][i] == a;
      assert at[k..][0] == at[k];
    }
  }

  lemma AllBelow(at: seq<nat>, sp: nat, last: nat)
    requires Descending(at, sp) && forall a | a in at :: a < last
    ensures Descending(at, last)
  {
    assert forall i | 0 <= i < |at| :: at[i] in at;
  }

  lemma NotAbove(at: seq<nat>, sp: nat, a: nat)
    requires a in at && a >= sp
    ensures !Descending(at, sp)
  {
  }

  lemma OpenPush(open: seq<ObjUpvalue>, at: seq<nat>, slots: seq<nat>, cells: map<ObjUpvalue, nat>, cell: nat)
    requires OpenShow(open, at, slots, cells) && Descending(at, |slots|)
    ensures OpenShow(open, at, slots + [cell], cells) && Descending(at, |slots| + 1)
  {
  }

  lemma OpenBelow(open: seq<ObjUpvalue>, at: seq<nat>, slots: seq<nat>, cells: map<ObjUpvalue, nat>, last: nat)
    requires OpenShow(open, at, slots, cells) && last <= |slots|
    requires Descending(at, last) || (Descending(at, last + 1) && last !in at)
    ensures OpenShow(open, at, slots[..last], cells) && Descending(at, last)
  {
  }

  lemma FoundAt(open: seq<ObjUpvalue>, at: seq<nat>, slots: seq<nat>, cells: map<ObjUpvalue, nat>, k: nat)
    requires OpenShow(open, at, slots, cells) && k < |open|
    ensures open[k] in cells && at[k] < |slots| && cells[open[k]] == slots[at[k]]
        && cells == cells[open[k] := slots[at[k]]] && at[k] in at
  {
  }

  lemma AllKnown(open: seq<ObjUpvalue>, at: seq<nat>, slots: seq<nat>, cells: map<ObjUpvalue, nat>)
    requires OpenShow(open, at, slots, cells)
    ensures forall v | v in open :: v in cells
  {
  }

  lemma SlotDead(live: seq<Value>, slots: seq<nat>, store: map<nat, Value>, slot: nat, last: nat)
    requires SlotsShow(live, slots, store) && last <= slot < |slots|
    ensures slots[slot] in store && store[slots[slot]] == live[slot] && slots[slot] !in slots[..last]
  {
  }

  lemma ClosedFewer(open: seq<ObjUpvalue>, slots: seq<nat>, cells: map<ObjUpvalue, nat>, store: map<nat, Value>,
      last: nat)
    requires ClosedShow(open, slots, cells, store) && last <= |slots|
    ensures ClosedShow(open, slots[..last], cells, store)
  {
  }

  lemma Inserted(at: seq<nat>, sp: nat, local: nat, k: nat)
    requires Descending(at, sp) && local < sp && k <= |at| && (forall i | 0 <= i < k :: at[i] > local)
        && (k < |at| ==> at[k] < local)
    ensures Descending(at[..k] + [local] + at[k..], sp) && local !in at
  {
  }

  lemma OpenInserted(before: seq<ObjUpvalue>, beforeAt: seq<nat>, open: seq<ObjUpvalue>, at: seq<nat>, slots: seq<nat>,
                     cells: map<ObjUpvalue, nat>, u: ObjUpvalue, local: nat, k: nat)
    requires OpenShow(before, beforeAt, slots, cells) && k <= |before| && u !in before && local < |slots|
    requires open == before[..k] + [u] + before[k..] && at == beforeAt[..k] + [local] + beforeAt[k..]
    ensures OpenShow(open, at, slots, cells[u := slots[local]])
  {
  }

  // No upvalue has the cell of a slot that none is open on.
  lemma CellUnused(live: seq<Value>, open: seq<ObjUpvalue>, at: seq<nat>, slots: seq<nat>, cells: map<ObjUpvalue, nat>,
      store: map<nat, Value>, local: nat)
    requires SlotsShow(live, slots, store) && OpenShow(open, at, slots, cells) && ClosedShow(open, slots, cells, store)
    requires local < |slots| && local !in at
    ensures forall v | v in cells :: cells[v] != slots[local]
  {
    forall v | v in cells ensures cells[v] != slots[local] {
      if v in open {
        var i :| 0 <= i < |open| && open[i] == v;
        assert at[i] != local;
      }
    }
  }
}

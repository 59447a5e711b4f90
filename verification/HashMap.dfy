/**
 The open-addressing hash map (src/vm_map.c) under insertion and lookup: a probe from the home slot of a key
 finds the key or the first free slot, and the table stands for a finite map from strings to values.
 */
module HashMap {
  import opened Syntax
  import opened Bytecode
  import opened Values

  // ----- slots -----

  // Bitwise and, digit by digit.
  function BitAnd(a: nat, b: nat): nat {
    if a == 0 || b == 0 then 0 else 2 * BitAnd(a / 2, b / 2) + (if a % 2 == 1 && b % 2 == 1 then 1 else 0)
  }

  predicate PowerOfTwo(n: nat) {
    n == 1 || (n > 1 && n % 2 == 0 && PowerOfTwo(n / 2))
  }

  // Masking with capacity - 1 is reduction modulo the capacity.
  lemma {:induction false} MaskIsModulo(a: nat, n: nat)
    requires PowerOfTwo(n)
    ensures BitAnd(a, n - 1) == a % n
    decreases n
  {
    if n > 1 {
      if a == 0 {
      } else {
        var h := n / 2;
        MaskIsModulo(a / 2, h);
        assert (n - 1) / 2 == h - 1 && (n - 1) % 2 == 1;
        HalfModulo(a, h);
      }
    }
  }

  lemma HalfModulo(a: nat, h: nat)
    requires h > 0
    ensures a % (2 * h) == 2 * (a / 2 % h) + a % 2
  {
    var q, r := a / 2 / h, a / 2 % h;
    assert a / 2 == q * h + r;
    assert a == q * (2 * h) + (2 * r + a % 2);
    ModuloUnique(a, 2 * h, q, 2 * r + a % 2);
  }

  lemma ModuloUnique(a: nat, n: nat, q: nat, r: nat)
    requires n > 0 && a == q * n + r && r < n
    ensures a % n == r
  {
    var q' := a / n;
    assert a == n * q' + a % n;
    assert n * q' == q' * n;
    MultiplesApart(q, q', n);
    MultiplesApart(q', q, n);
  }

  lemma MultiplesApart(x: nat, y: nat, n: nat)
    ensures x < y ==> x * n + n <= y * n
  {
    if x < y {
      var d := y - x - 1;
      assert y * n == x * n + d * n + n;
      assert d * n >= 0;
    }
  }

  // An interned string; keys are compared by reference.
  class String {
    const bytes: seq<Byte>
    const hash: Word

    constructor (bytes: seq<Byte>, hash: Word)
      ensures this.bytes == bytes && this.hash == hash
    {
      this.bytes, this.hash := bytes, hash;
    }
  }

  datatype Entry = Entry(key: String?, value: Value)

  const FREE: Entry := Entry(null, Null)

  // The slot d steps after `from` in a table of n slots.
  function Slot(from: nat, d: nat, n: nat): (r: nat)
    requires from < n && d <= n
    ensures r < n
  {
    if from + d < n then from + d else from + d - n
  }

  function Home(hash: Word, n: nat): (r: nat)
    requires n > 0
    ensures r < n
  {
    hash % n
  }

  // The next slot, as the code computes it.
  lemma NextSlot(from: nat, d: nat, n: nat)
    requires from < n && d < n && PowerOfTwo(n)
    ensures BitAnd(Slot(from, d, n) + 1, n - 1) == Slot(from, d + 1, n)
  {
    hide BitAnd, PowerOfTwo;
    var x := Slot(from, d, n) + 1;
    MaskIsModulo(x, n);
    if x < n {
      ModuloUnique(x, n, 0, x);
    } else {
      ModuloUnique(x, n, 1, 0);
    }
  }

  // Every slot is reached within n steps.
  function Steps(from: nat, j: nat, n: nat): (d: nat)
    requires from < n && j < n
    ensures d < n && Slot(from, d, n) == j
  {
    if j >= from then j - from else j + n - from
  }

  // ----- tables -----

  // The first d slots from the home slot of a hash are not free; a slot without key that is not free is a tombstone.
  ghost predicate Reached(es: seq<Entry>, hash: Word, d: nat) {
    0 < |es| && d <= |es| && forall i: nat | i < d :: es[Slot(Home(hash, |es|), i, |es|)] != FREE
  }

  // The key of slot j is found by probing.
  ghost predicate Findable(es: seq<Entry>, j: nat) {
    j < |es| && es[j].key != null && Reached(es, es[j].key.hash, Steps(Home(es[j].key.hash, |es|), j, |es|))
  }

  ghost predicate Table(es: seq<Entry>) {
    && (forall j: nat | j < |es| && es[j].key != null :: Findable(es, j))
    && (forall i: nat, j: nat | i < |es| && j < |es| && es[i].key != null && es[i].key == es[j].key :: i == j)
  }

  // Nothing has been deleted.
  predicate NoTombstones(es: seq<Entry>) {
    forall j: nat | j < |es| && es[j].key == null :: es[j] == FREE
  }

  function Taken(es: seq<Entry>): (r: nat)
    ensures r <= |es|
  {
    if es == [] then 0 else Taken(es[..|es| - 1]) + (if es[|es| - 1].key == null then 0 else 1)
  }

  // The map a table stands for.
  ghost function Contents(es: seq<Entry>): map<String, Value> {
    if es == [] then map[]
    else
      var last := es[|es| - 1];
      if last.key == null then Contents(es[..|es| - 1]) else Contents(es[..|es| - 1])[last.key := last.value]
  }

  lemma {:induction false} FreeSlot(es: seq<Entry>) returns (j: nat)
    requires Taken(es) < |es|
    ensures j < |es| && es[j].key == null
  {
    j := |es| - 1;
    if es[j].key != null {
      var init := es[..j];
      j := FreeSlot(init);
    }
  }

  lemma {:induction false} ContentsHas(es: seq<Entry>, k: String)
    ensures k in Contents(es) <==> exists j: nat :: j < |es| && es[j].key == k
  {
    if es != [] {
      var n := |es| - 1;
      ContentsHas(es[..n], k);
      assert forall j: nat | j < n :: es[..n][j] == es[j];
      if k in Contents(es) && es[n].key != k {
        var j: nat :| j < n && es[..n][j].key == k;
        assert es[j].key == k;
      }
      if exists j: nat :: j < |es| && es[j].key == k {
        var j: nat :| j < |es| && es[j].key == k;
        if j < n {
          assert es[..n][j].key == k;
        }
      }
    }
  }

  ghost predicate Distinct(es: seq<Entry>) {
    forall i: nat, j: nat | i < |es| && j < |es| && es[i].key != null && es[i].key == es[j].key :: i == j
  }

  lemma {:induction false} ContentsAt(es: seq<Entry>, j: nat)
    requires Distinct(es) && j < |es| && es[j].key != null
    ensures es[j].key in Contents(es) && Contents(es)[es[j].key] == es[j].value
  {
    var n := |es| - 1;
    if j < n {
      assert es[..n][j] == es[j];
      assert Distinct(es[..n]) by {
        assert forall i: nat | i < n :: es[..n][i] == es[i];
      }
      ContentsAt(es[..n], j);
    }
  }

  lemma {:induction false} ContentsSize(es: seq<Entry>)
    requires Distinct(es)
    ensures |Contents(es)| == Taken(es)
  {
    if es != [] {
      var n := |es| - 1;
      assert forall i: nat | i < n :: es[..n][i] == es[i];
      assert Distinct(es[..n]);
      ContentsSize(es[..n]);
      if es[n].key != null {
        ContentsHas(es[..n], es[n].key);
        assert es[n].key !in Contents(es[..n]);
      }
    }
  }

  // Storing a key in its own slot or a free one.
  lemma {:induction false} ContentsPut(es: seq<Entry>, r: nat, k: String, v: Value)
    requires Distinct(es) && r < |es|
    requires es[r].key == k || (es[r].key == null && k !in Contents(es))
    ensures Contents(es[r := Entry(k, v)]) == Contents(es)[k := v]
    ensures Taken(es[r := Entry(k, v)]) == Taken(es) + (if es[r].key == null then 1 else 0)
  {
    var n, es' := |es| - 1, es[r := Entry(k, v)];
    var init := es[..n];
    assert forall i: nat | i < n :: init[i] == es[i];
    assert Distinct(init);
    if r < n {
      assert es'[..n] == init[r := Entry(k, v)];
      if es[r].key == null {
        ContentsHas(es, k);
        ContentsHas(init, k);
      }
      ContentsPut(init, r, k, v);
      assert es'[n] == es[n] && es[n].key != k;
    } else {
      assert es'[..n] == init;
    }
  }

  // A probe that meets a free slot first: the key is not in the table.
  lemma {:induction false} KeyAbsent(es: seq<Entry>, key: String, d: nat)
    requires Table(es) && Reached(es, key.hash, d) && d < |es|
    requires es[Slot(Home(key.hash, |es|), d, |es|)] == FREE
    requires forall i: nat | i < d :: es[Slot(Home(key.hash, |es|), i, |es|)].key != key
    ensures key !in Contents(es)
  {
    hide Contents;
    ContentsHas(es, key);
    forall j: nat | j < |es| ensures es[j].key != key {
      var e := Steps(Home(key.hash, |es|), j, |es|);
      assert es[j].key == key ==> Findable(es, j);
      assert e < d || e == d || d < e;
    }
  }

  lemma {:induction false} TablePut(es: seq<Entry>, r: nat, k: String, v: Value)
    requires Table(es) && r < |es| && Reached(es, k.hash, Steps(Home(k.hash, |es|), r, |es|))
    requires es[r].key == k || (es[r].key == null && k !in Contents(es))
    ensures Table(es[r := Entry(k, v)]) && (NoTombstones(es) ==> NoTombstones(es[r := Entry(k, v)]))
  {
    hide Contents;
    var es' := es[r := Entry(k, v)];
    ContentsHas(es, k);
    forall j: nat | j < |es'| && es'[j].key != null ensures Findable(es', j) {
      if j != r {
        assert Findable(es, j);
      }
    }
  }

  lemma {:induction false} TakenPrefix(es: seq<Entry>, i: nat)
    requires i <= |es|
    ensures Taken(es[..i]) <= Taken(es)
    decreases |es| - i
  {
    if i < |es| {
      TakenPrefix(es, i + 1);
      assert es[..i + 1][..i] == es[..i];
    } else {
      assert es[..i] == es;
    }
  }

  lemma {:induction false} PrefixGrows(es: seq<Entry>, i: nat)
    requires i < |es|
    ensures es[i].key == null ==> Contents(es[..i + 1]) == Contents(es[..i]) && Taken(es[..i + 1]) == Taken(es[..i])
    ensures es[i].key != null ==>
        Contents(es[..i + 1]) == Contents(es[..i])[es[i].key := es[i].value]
        && Taken(es[..i + 1]) == Taken(es[..i]) + 1
    ensures Distinct(es) && es[i].key != null ==> es[i].key !in Contents(es[..i])
  {
    assert es[..i + 1][..i] == es[..i];
    if Distinct(es) && es[i].key != null {
      ContentsHas(es[..i], es[i].key);
      forall j: nat | j < i ensures es[..i][j].key != es[i].key {
        assert es[..i][j] == es[j];
      }
    }
  }

  lemma {:induction false} AllFree(es: seq<Entry>)
    requires forall i: nat | i < |es| :: es[i] == FREE
    ensures Table(es) && NoTombstones(es) && Taken(es) == 0 && Contents(es) == map[]
  {
    if es != [] {
      AllFree(es[..|es| - 1]);
    }
  }

  // vm_map_find_entry: the slot of the key, or the first slot on the way that it can have.
  method FindEntry(entries: array<Entry>, capacity: nat, key: String) returns (index: nat)
    requires entries.Length == capacity && PowerOfTwo(capacity) && Table(entries[..]) && FREE in entries[..]
    ensures index < capacity && Reached(entries[..], key.hash, Steps(Home(key.hash, capacity), index, capacity))
    ensures entries[index].key == key || (entries[index].key == null && key !in Contents(entries[..]))
  {
    hide Contents, BitAnd, PowerOfTwo;
    ghost var es, home, d, t := entries[..], Home(key.hash, capacity), 0, 0;
    ghost var free: nat :| free < capacity && es[free] == FREE;
    MaskIsModulo(key.hash, capacity);
    index := BitAnd(key.hash, capacity - 1);
    var tombstone: int := -1;
    while true
      invariant d <= Steps(home, free, capacity) && index == Slot(home, d, capacity)
      invariant Reached(es, key.hash, d) && forall i: nat | i < d :: es[Slot(home, i, capacity)].key != key
      invariant tombstone == -1 || (t < d && tombstone == Slot(home, t, capacity) && es[tombstone].key == null)
      decreases capacity - d
    {
      var entry := entries[index];
      if entry.key == null {
        if entry.value == Null {
          KeyAbsent(es, key, d);
          return if tombstone != -1 then tombstone else index;
        } else if tombstone == -1 {
          tombstone, t := index, d;
        }
      } else if entry.key == key {
        return index;
      }
      NextSlot(home, d, capacity);
      index := BitAnd(index + 1, capacity - 1);
      d := d + 1;
    }
  }

  lemma {:induction false} FreeIn(es: seq<Entry>)
    requires NoTombstones(es) && Taken(es) < |es|
    ensures FREE in es
  {
    var j := FreeSlot(es);
  }

  class Map {
    var entries: array<Entry>
    var count: nat
    var capacity: nat

    // Three quarters of the slots at most are taken, so that a probe always meets a free one.
    ghost predicate Valid()
      reads this, entries
    {
      && entries.Length == capacity && (capacity == 0 || (capacity >= 8 && PowerOfTwo(capacity)))
      && Table(entries[..]) && NoTombstones(entries[..]) && count == Taken(entries[..]) && 4 * count <= 3 * capacity
    }

    ghost function Model(): map<String, Value>
      reads this, entries
    {
      Contents(entries[..])
    }

    constructor ()
      ensures Valid() && Model() == map[] && fresh(entries)
    {
      entries := new Entry[0];
      count, capacity := 0, 0;
      new;
      AllFree(entries[..]);
    }

    // The count is the number of keys.
    lemma CountIsSize()
      requires Valid()
      ensures count == |Model()|
    {
      hide Taken, Contents;
      ContentsSize(entries[..]);
    }

    method Lookup(key: String) returns (found: bool, value: Value)
      requires Valid()
      ensures found <==> key in Model()
      ensures found ==> value == Model()[key]
    {
      hide Taken, Contents, PowerOfTwo;
      value := Null;
      if count == 0 {
        CountIsSize();
        assert Model().Keys == {};
        return false, Null;
      }
      FreeIn(entries[..]);
      var r := FindEntry(entries, capacity, key);
      if entries[r].key == null {
        return false, Null;
      }
      ContentsAt(entries[..], r);
      return true, entries[r].value;
    }

    method AdjustCapacity(newCapacity: nat)
      requires Valid() && newCapacity >= 8 && PowerOfTwo(newCapacity) && count < newCapacity
          && 4 * count <= 3 * newCapacity
      modifies this
      ensures Valid() && fresh(entries) && capacity == newCapacity && count == old(count) && Model() == old(Model())
    {
      hide Taken, Contents, PowerOfTwo;
      var table := new Entry[newCapacity](_ => FREE);
      AllFree(table[..]);
      ghost var es := entries[..];
      NothingTaken(es);
      count := 0;
      var i := 0;
      while i < capacity
        invariant i <= capacity && entries == old(entries) && capacity == old(capacity) && entries[..] == es
            && fresh(table)
        invariant table.Length == newCapacity && Table(table[..]) && NoTombstones(table[..])
        invariant count == Taken(table[..]) == Taken(es[..i]) && Contents(table[..]) == Contents(es[..i])
      {
        var entry := entries[i];
        PrefixGrows(es, i);
        TakenPrefix(es, i + 1);
        if entry.key != null {
          FreeIn(table[..]);
          var dest := FindEntry(table, newCapacity, entry.key);
          ContentsHas(table[..], entry.key);
          TablePut(table[..], dest, entry.key, entry.value);
          ContentsPut(table[..], dest, entry.key, entry.value);
          ghost var before := table[..];
          table[dest] := Entry(entry.key, entry.value);
          assert table[..] == before[dest := Entry(entry.key, entry.value)];
          count := count + 1;
        }
        i := i + 1;
      }
      assert es[..i] == es;
      entries := table;
      capacity := newCapacity;
    }

    method Insert(key: String, value: Value) returns (isNew: bool)
      requires Valid()
      modifies this, entries
      ensures Valid() && (entries == old(entries) || fresh(entries))
      ensures Model() == old(Model())[key := value]
      ensures isNew <==> key !in old(Model())
    {
      hide Taken, Contents, Table, NoTombstones, PowerOfTwo;
      if 4 * (count + 1) > 3 * capacity {
        EightAndDoubles(capacity);
        AdjustCapacity(if capacity == 0 then 8 else capacity * 2);
      }
      FreeIn(entries[..]);
      var r := FindEntry(entries, capacity, key);
      isNew := entries[r].key == null;
      ghost var es := entries[..];
      ContentsHas(es, key);
      TableDistinct(es);
      if isNew {
        TombstoneFree(es, r);
      }
      TablePut(es, r, key, value);
      ContentsPut(es, r, key, value);
      if isNew && entries[r].value == Null {
        count := count + 1;
      }
      entries[r] := Entry(key, value);
      assert entries[..] == es[r := Entry(key, value)];
    }
  }

  lemma EightAndDoubles(n: nat)
    ensures PowerOfTwo(8) && (n > 0 && PowerOfTwo(n) ==> PowerOfTwo(n * 2))
  {
    assert PowerOfTwo(2) && PowerOfTwo(4);
    assert n * 2 / 2 == n;
  }

  lemma TombstoneFree(es: seq<Entry>, r: nat)
    requires NoTombstones(es) && r < |es| && es[r].key == null
    ensures es[r].value == Null
  {
  }

  // The parts of a valid table.
  lemma TableDistinct(es: seq<Entry>)
    requires Table(es)
    ensures Distinct(es)
  {
  }

  lemma NothingTaken(es: seq<Entry>)
    ensures Taken(es[..0]) == 0 && Contents(es[..0]) == map[]
  {
  }
}

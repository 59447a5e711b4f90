/**
 String interning (vm_find_string in src/vm_map.c, vm_copy_string and vm_concat_strings in src/vm_gc.c):
 there is one string object for each content, so that strings can be compared by reference.
 */
module Interning {
  import opened Syntax
  import opened Bytecode
  import opened Values
  import opened HashMap

  // Bitwise exclusive or, digit by digit.
  function BitXor(a: nat, b: nat): nat
    decreases a + b
  {
    if a == 0 then b else if b == 0 then a else 2 * BitXor(a / 2, b / 2) + (a + b) % 2
  }

  const FNV_OFFSET: Word := 2166136261
  const FNV_PRIME: nat := 16777619

  function Mix(hash: Word, b: Byte): Word {
    BitXor(hash, b) * FNV_PRIME % 0x1_0000_0000
  }

  function HashOf(bytes: seq<Byte>): Word {
    if bytes == [] then FNV_OFFSET else Mix(HashOf(bytes[..|bytes| - 1]), bytes[|bytes| - 1])
  }

  method StringHash(key: seq<Byte>) returns (hash: Word)
    ensures hash == HashOf(key)
  {
    hide Mix;
    hash := FNV_OFFSET;
    var i := 0;
    while i < |key|
      invariant i <= |key| && hash == HashOf(key[..i])
    {
      assert key[..i + 1][..i] == key[..i];
      hash := Mix(hash, key[i]);
      i := i + 1;
    }
    assert key[..i] == key;
  }

  // One more binary digit.
  lemma {:induction false} XorDigit(a: nat, i: nat, b: nat, j: nat)
    requires i < 2 && j < 2
    ensures BitXor(2 * a + i, 2 * b + j) == 2 * BitXor(a, b) + (if i == j then 0 else 1)
  {
    assert (2 * a + i) / 2 == a && (2 * b + j) / 2 == b;
    assert (2 * a + i + (2 * b + j)) % 2 == (i + j) % 2;
    XorZero(a);
    XorZero(b);
  }

  lemma {:induction false} XorZero(a: nat)
    ensures BitXor(a, 0) == a == BitXor(0, a)
  {
  }

  lemma {:induction false} XorVector()
    ensures BitXor(2166136261, 97) == 2166136228
  {
    hide BitXor;
    XorZero(16922939);
    XorDigit(16922939, 1, 0, 1);
    XorDigit(33845879, 0, 1, 1);
    XorDigit(67691758, 0, 3, 0);
    XorDigit(135383516, 0, 6, 0);
    XorDigit(270767032, 1, 12, 0);
    XorDigit(541534065, 0, 24, 0);
    XorDigit(1083068130, 1, 48, 1);
  }

  lemma HashOne(b: Byte)
    ensures HashOf([]) == FNV_OFFSET && HashOf([b]) == Mix(FNV_OFFSET, b)
  {
    hide Mix;
    assert [b][..0] == [];
  }

  /** Test values of 32-bit FNV-1a: those of the empty string and of "a". */
  lemma {:induction false} HashVectors()
    ensures HashOf([]) == 2166136261 && HashOf([97]) == 3826002220
  {
    hide BitXor, HashOf;
    HashOne(97);
    XorVector();
    assert 2166136228 * 16777619 == 8461672 * 0x1_0000_0000 + 3826002220;
  }

  // One string for each content, with the hash of its content.
  ghost predicate Interned(keys: set<String>) {
    && (forall a, b | a in keys && b in keys && a.bytes == b.bytes :: a == b)
    && (forall a | a in keys :: a.hash == HashOf(a.bytes))
  }

  class Strings {
    const table: Map

    constructor ()
      ensures Valid() && Keys() == {} && fresh(table) && fresh(table.entries)
    {
      table := new Map();
    }

    ghost predicate Valid()
      reads this, table, table.entries
    {
      table.Valid() && Interned(Keys())
    }

    ghost function Keys(): set<String>
      reads this, table, table.entries
    {
      table.Model().Keys
    }

    // Comparing two interned strings by reference compares their contents.
    lemma ReferenceIsContent(a: String, b: String)
      requires Valid() && a in Keys() && b in Keys()
      ensures a == b <==> a.bytes == b.bytes
    {
      hide HashOf;
    }

    // vm_find_string.
    method FindString(bytes: seq<Byte>, hash: Word) returns (r: String?)
      requires Valid() && hash == HashOf(bytes)
      ensures r != null ==> r in Keys() && r.bytes == bytes
      ensures r == null ==> forall k | k in Keys() :: k.bytes != bytes
    {
      hide HashOf, Taken, Contents, BitAnd, PowerOfTwo, Steps, Table, NoTombstones, Interned;
      ghost var es, n := table.entries[..], table.capacity;
      if table.count == 0 {
        table.CountIsSize();
        assert Keys() == {};
        return null;
      }
      ghost var home, d := Home(hash, n), 0;
      FreeIn(es);
      ghost var free: nat :| free < n && es[free] == FREE;
      MaskIsModulo(hash, n);
      var index := BitAnd(hash, table.capacity - 1);
      while true
        invariant d <= Steps(home, free, n) && index == Slot(home, d, n) && Reached(es, hash, d)
        invariant forall i: nat | i < d :: Differs(es[Slot(home, i, n)].key, bytes, hash)
        decreases n - d
      {
        var entry := table.entries[index];
        if entry.key == null {
          if entry.value == Null {
            ContentAbsent(es, bytes, hash, d);
            return null;
          }
        } else if entry.key.hash == hash && entry.key.bytes == bytes {
          ContentsHas(es, entry.key);
          return entry.key;
        }
        NextSlot(home, d, n);
        index := BitAnd(index + 1, table.capacity - 1);
        d := d + 1;
      }
    }

    // vm_new_string, for a content that is not interned yet.
    method NewString(bytes: seq<Byte>, hash: Word) returns (r: String)
      requires Valid() && hash == HashOf(bytes) && forall k | k in Keys() :: k.bytes != bytes
      modifies table, table.entries
      ensures Valid() && (table.entries == old(table.entries) || fresh(table.entries))
      ensures fresh(r) && r.bytes == bytes && Keys() == old(Keys()) + {r}
    {
      hide HashOf, Taken, Contents;
      r := new String(bytes, hash);
      var isNew := table.Insert(r, Null);
    }

    method CopyString(bytes: seq<Byte>) returns (r: String)
      requires Valid()
      modifies table, table.entries
      ensures Valid() && (table.entries == old(table.entries) || fresh(table.entries))
      ensures r.bytes == bytes && Keys() == old(Keys()) + {r}
      ensures r in old(Keys()) <==> exists k :: k in old(Keys()) && k.bytes == bytes
    {
      hide HashOf, Taken, Contents;
      var hash := StringHash(bytes);
      var interned := FindString(bytes, hash);
      if interned != null {
        return interned;
      }
      r := NewString(bytes, hash);
    }

    method ConcatStrings(lhs: String, rhs: String) returns (r: String)
      requires Valid() && lhs in Keys() && rhs in Keys()
      modifies table, table.entries
      ensures Valid() && (table.entries == old(table.entries) || fresh(table.entries))
      ensures r.bytes == lhs.bytes + rhs.bytes && Keys() == old(Keys()) + {r}
      ensures r in old(Keys()) <==> exists k :: k in old(Keys()) && k.bytes == lhs.bytes + rhs.bytes
    {
      hide HashOf, Taken, Contents;
      var items := lhs.bytes + rhs.bytes;
      var hash := StringHash(items);
      var interned := FindString(items, hash);
      if interned != null {
        return interned;
      }
      r := NewString(items, hash);
    }
  }

  predicate Differs(key: String?, bytes: seq<Byte>, hash: Word) {
    key == null || key.bytes != bytes || key.hash != hash
  }

  // A probe that meets a free slot first: no string in the table has this content.
  lemma {:induction false} ContentAbsent(es: seq<Entry>, bytes: seq<Byte>, hash: Word, d: nat)
    requires Table(es) && Reached(es, hash, d) && d < |es| && hash == HashOf(bytes) && Interned(Contents(es).Keys)
    requires es[Slot(Home(hash, |es|), d, |es|)] == FREE
    requires forall i: nat | i < d :: Differs(es[Slot(Home(hash, |es|), i, |es|)].key, bytes, hash)
    ensures forall k | k in Contents(es) :: k.bytes != bytes
  {
    hide HashOf, Contents;
    forall k | k in Contents(es) ensures k.bytes != bytes {
      assert k in Contents(es).Keys;
      if k.bytes == bytes {
        KeyAbsent(es, k, d);
      }
    }
  }
}

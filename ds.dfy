/// The hash table of src/ds.c: string keys, `unsigned` values, open addressing
/// with linear probing, capacity 16 doubling whenever an insertion finds the
/// table at least half full, and an iterator over the slots. The same code is
/// pasted into 7/assembler.c (lines 34-190) and src/assembler.c (lines 22-153,
/// there named `st_*`, without the iterator); this module is the model of all
/// three copies.
module Ds {
  import opened CLib
  import opened OpenAddressing

  const INITIAL_CAPACITY: nat := 16
  /// One more than the largest `size_t`.
  const SIZE_LIMIT: nat := 0x1_0000_0000_0000_0000

  /// What a table stands for: the stored mapping and the capacity, which
  /// decides when the next `ht_set` has to grow the table.
  datatype Table = Table(entries: map<string, u32>, capacity: nat)

  ghost predicate IsPow2(n: nat) decreases n
  {
    n == 1 || (n > 1 && n % 2 == 0 && IsPow2(n / 2))
  }

  /// The size discipline every table keeps: a power-of-two capacity from 16
  /// up that fits a `size_t`, and at most half of it in use.
  ghost predicate WellSized(t: Table)
  {
    IsPow2(t.capacity) && INITIAL_CAPACITY <= t.capacity < SIZE_LIMIT
    && |t.entries| <= t.capacity / 2
  }

  /// The table `ht_new` returns.
  function NewTable(): (t: Table)
    ensures WellSized(t) && t.entries == map[] && t.capacity == 16
  {
    assert IsPow2(16) by { assert IsPow2(8) by { assert IsPow2(4) by { assert IsPow2(2); } } }
    Table(map[], INITIAL_CAPACITY)
  }

  /// `ht_get`: the stored value, 0 for an absent key.
  function Lookup(t: Table, key: string): u32
  {
    if key in t.entries then t.entries[key] else 0
  }

  /// `ht_set`: grow first when at least half full (failing, and changing
  /// nothing, when the doubled capacity would overflow `size_t`), then
  /// overwrite or add the mapping. The flag is false exactly when `ht_set`
  /// returns NULL.
  function Store(t: Table, key: string, value: u32): (r: (Table, bool))
    requires WellSized(t)
    ensures WellSized(r.0)
  {
    var grow := |t.entries| >= t.capacity / 2;
    var cap := if grow then 2 * t.capacity else t.capacity;
    if cap >= SIZE_LIMIT then (t, false)
    else
      assert grow ==> IsPow2(cap) by { if grow { assert cap / 2 == t.capacity; } }
      (Table(t.entries[key := value], cap), true)
  }

  /// What `ht_set` promises: it fails only when the table would have to grow
  /// past the largest `size_t`, and then changes nothing; otherwise `key`
  /// now looks up as `value`, every other key as before, the length counts
  /// a new key once, and the capacity has doubled exactly when the table was
  /// at least half full.
  lemma StoreSpec(t: Table, key: string, value: u32)
    requires WellSized(t)
    ensures var r := Store(t, key, value);
      && (!r.1 <==> |t.entries| >= t.capacity / 2 && 2 * t.capacity >= SIZE_LIMIT)
      && (!r.1 ==> r.0 == t)
      && (r.1 ==> Lookup(r.0, key) == value)
      && (r.1 ==> forall k :: k != key ==> Lookup(r.0, k) == Lookup(t, k))
      && (r.1 ==> |r.0.entries| == if key in t.entries then |t.entries| else |t.entries| + 1)
      && (r.1 ==> r.0.capacity == if |t.entries| >= t.capacity / 2 then 2 * t.capacity else t.capacity)
  {
  }

  /// A slot array `s` indexed by `where` and holding `length` keys, sized as
  /// `WellSized` demands.
  ghost predicate Sound(s: seq<Slot<u32>>, where: map<string, nat>, length: nat)
  {
    && Indexed(s, where)
    && length == |where| == |Occupied(s)|
    && IsPow2(|s|) && INITIAL_CAPACITY <= |s| < SIZE_LIMIT
    && length <= |s| / 2
  }

  /// The re-inserted, doubled slot array of a sound one is sound.
  lemma Regrown(s: seq<Slot<u32>>, where: map<string, nat>, length: nat, t: seq<Slot<u32>>, w: map<string, nat>)
    requires Sound(s, where, length) && |t| == 2 * |s| < SIZE_LIMIT
    requires Indexed(t, w) && |w| == |where| == |Occupied(t)|
    ensures Sound(t, w, length)
  {
    assert |t| / 2 == |s|;
  }

  /// The 16 empty slots `ht_new` allocates hold the empty table.
  lemma FreshTable(s: seq<Slot<u32>>)
    requires |s| == INITIAL_CAPACITY && forall j | 0 <= j < |s| :: s[j].Empty?
    ensures Sound(s, map[], 0) && Contents(s, map[]) == map[]
  {
    Fresh(s);
    var t := NewTable();
  }

  /// The table of src/ds.c.
  class HashTable {
    var entries: array<Slot<u32>>
    var capacity: nat
    var length: nat
    /// The slot of every stored key.
    ghost var where: map<string, nat>

    ghost predicate Valid()
      reads this, entries
    {
      capacity == entries.Length && Sound(entries[..], where, length)
    }

    ghost function Model(): (t: Table)
      reads this, entries
      requires Valid()
      ensures WellSized(t) && t.capacity == capacity && |t.entries| == length
    {
      Table(Contents(entries[..], where), capacity)
    }

    /// `ht_new`.
    constructor ()
      ensures Valid() && Model() == NewTable() && fresh(entries)
    {
      entries := new Slot<u32>[INITIAL_CAPACITY](_ => Empty);
      capacity := INITIAL_CAPACITY;
      length := 0;
      where := map[];
      new;
      FreshTable(entries[..]);
    }

    /// `ht_get`.
    method Get(key: string) returns (v: u32)
      requires Valid()
      ensures v == Lookup(Model(), key)
    {
      ghost var e := EmptyExists(entries[..]);
      var i, found := Probe(entries, key, e);
      Located(entries[..], where, key, i);
      if found {
        v := entries[i].val;
      } else {
        v := 0;
      }
    }

    /// `ht_len`: the number of distinct keys stored.
    method Len() returns (n: nat)
      requires Valid()
      ensures n == |Model().entries|
    {
      n := length;
    }

    /// `ht_set_entry`: probe `a` for `key`; overwrite its value if present,
    /// otherwise store the key in the empty slot the probe stopped at.
    /// `inserted` reports a new key, which is when the source bumps
    /// `*length_ptr` (if it was given one).
    static method SetEntry(a: array<Slot<u32>>, key: string, value: u32, ghost where: map<string, nat>)
        returns (inserted: bool, ghost where': map<string, nat>)
      requires Indexed(a[..], where) && |Occupied(a[..])| < a.Length
      modifies a
      ensures inserted <==> key !in where
      ensures Indexed(a[..], where') && where'.Keys == where.Keys + {key}
      ensures |where'| == |where| + if inserted then 1 else 0
      ensures |Occupied(a[..])| == |Occupied(old(a[..]))| + if inserted then 1 else 0
      ensures Contents(a[..], where') == Contents(old(a[..]), where)[key := value]
    {
      ghost var s := a[..];
      ghost var e := EmptyExists(s);
      var i, found := Probe(a, key, e);
      ghost var s', w := Placed(s, where, key, value, i);
      a[i] := Full(key, value);
      assert a[..] == s';
      inserted, where' := !found, w;
    }

    /// The re-insertion loop of `ht_expand`: a fresh, zeroed slot array of
    /// `newCapacity` slots receives every entry of `a`, in slot order,
    /// through `ht_set_entry` without a length pointer.
    static method Rehash(a: array<Slot<u32>>, ghost where: map<string, nat>, newCapacity: nat)
        returns (b: array<Slot<u32>>, ghost w: map<string, nat>)
      requires Indexed(a[..], where) && a.Length < newCapacity
      ensures fresh(b) && b.Length == newCapacity
      ensures Indexed(b[..], w) && |w| == |where| == |Occupied(b[..])|
      ensures Contents(b[..], w) == Contents(a[..], where)
    {
      b := new Slot<u32>[newCapacity](_ => Empty);
      Fresh(b[..]);
      w := map[];
      CopyStart(a[..], where, b[..]);
      var i := 0;
      while i < a.Length
        invariant i <= a.Length && Copied(a[..], where, b[..], w, i)
        invariant |Occupied(b[..])| == |w| <= i
      {
        var entry := a[i];
        if entry.Full? {
          ghost var t, v := b[..], w;
          var _, w' := SetEntry(b, entry.key, entry.val, w);
          w := w';
          CopyStep(a[..], where, t, v, i, b[..], w);
        } else {
          CopyStep(a[..], where, b[..], w, i, b[..], w);
        }
        i := i + 1;
      }
      CopyDone(a[..], where, b[..], w);
    }

    /// `ht_expand`: double the capacity and re-insert every entry into a
    /// fresh slot array; fails, changing nothing, when the doubled capacity
    /// overflows `size_t`.
    method Expand() returns (ok: bool)
      requires Valid()
      modifies this
      ensures Valid() && length == old(length)
      ensures ok <==> 2 * old(capacity) < SIZE_LIMIT
      ensures ok ==> capacity == 2 * old(capacity) && fresh(entries)
      ensures ok ==> Model().entries == old(Model().entries)
      ensures !ok ==> entries == old(entries) && capacity == old(capacity) && Model() == old(Model())
    {
      var newCapacity := capacity * 2;
      if newCapacity >= SIZE_LIMIT {
        return false;
      }
      Resize(newCapacity);
      ok := true;
    }

    /// The part of `ht_expand` past the overflow check: allocate the larger
    /// slot array, re-insert every entry and install the new array.
    method Resize(newCapacity: nat)
      requires Valid() && newCapacity == 2 * capacity < SIZE_LIMIT
      modifies this
      ensures Valid() && length == old(length) && capacity == newCapacity && fresh(entries)
      ensures Model().entries == old(Model().entries)
    {
      var b, w := Rehash(entries, where, newCapacity);
      Regrown(entries[..], where, length, b[..], w);
      entries, capacity, where := b, newCapacity, w;
    }

    /// The call `ht_set_entry(table->entries, table->capacity, key, value,
    /// &table->length)` that ends `ht_set`, on a table with room to spare.
    method Put(key: string, value: u32)
      requires Valid() && length < capacity / 2
      modifies this, entries
      ensures Valid() && entries == old(entries) && capacity == old(capacity)
      ensures Model().entries == old(Model().entries)[key := value]
    {
      var inserted;
      ghost var w;
      inserted, w := SetEntry(entries, key, value, where);
      ghost var s' := entries[..];
      where, length := w, if inserted then length + 1 else length;
      assert entries[..] == s';
    }

    /// `ht_set`; `ok` is false exactly when the source returns NULL.
    method Set(key: string, value: u32) returns (ok: bool)
      requires Valid()
      modifies this, entries
      ensures Valid() && (entries == old(entries) || fresh(entries))
      ensures (Model(), ok) == Store(old(Model()), key, value)
    {
      if length >= capacity / 2 {
        ok := Expand();
        if !ok {
          return;
        }
      }
      Put(key, value);
      ok := true;
    }
  }

  /// `ht_i`, the iterator `ht_iter` creates and `ht_next` advances.
  class Iterator {
    const table: HashTable
    var index: nat
    var key: string
    var value: u32

    /// The keys of the slots the iterator has moved past.
    ghost function Yielded(): set<string>
      reads this, table, table.entries
    {
      KeysBefore(table.entries[..], index)
    }

    /// `ht_iter`: start at slot 0.
    constructor (t: HashTable)
      requires t.Valid()
      ensures table == t && index == 0 && Yielded() == {}
    {
      table := t;
      index := 0;
      key := "";
      value := 0;
    }

    /// `ht_next`: move to the next occupied slot and report its entry, or
    /// return false once every slot has been passed. While the table is not
    /// changed, successive calls yield every stored key exactly once, in
    /// slot order.
    method Next() returns (more: bool)
      requires table.Valid() && index <= table.capacity
      modifies this
      ensures index <= table.capacity
      ensures more ==> old(index) < index && table.entries[index - 1] == Full(key, value)
      ensures more ==> forall j | old(index) <= j < index - 1 :: table.entries[j].Empty?
      ensures more ==> key in table.Model().entries && table.Model().entries[key] == value
      ensures more ==> key !in old(Yielded()) && Yielded() == old(Yielded()) + {key}
      ensures !more ==> index == table.capacity && Yielded() == table.Model().entries.Keys
      ensures !more ==> unchanged(this`key, this`value)
    {
      ghost var s := table.entries[..];
      var i := index;
      while i < table.capacity && table.entries[i].Empty?
        invariant unchanged(this)
        invariant index <= i <= table.capacity
        invariant forall j | index <= j < i :: s[j].Empty?
        invariant KeysBefore(s, i) == KeysBefore(s, index)
      {
        KeysBeforeStep(s, i);
        i := i + 1;
      }
      if i < table.capacity {
        KeysBeforeStep(s, i);
        KeyNotBefore(s, table.where, i);
        key, value := table.entries[i].key, table.entries[i].val;
        index := i + 1;
        more := true;
      } else {
        KeysBeforeAll(s, table.where);
        index := i;
        more := false;
      }
      assert table.entries[..] == s;
    }
  }
}

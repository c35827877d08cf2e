/// The symbol table of src/compiler.c (`st_new`, `st_get`, `st_set_entry`,
/// `st_expand`, `st_set`): the open addressing of src/ds.c, but each record
/// holds a type, a kind and an index, a name already present is left as it
/// is (the first declaration wins), and `st_set` hands out indices from one
/// counter per kind.
module JackSymbols {
  import opened CLib
  import opened OpenAddressing
  import Ds

  /// `SymbolKind`.
  datatype SymbolKind = FieldKind | StaticKind | LocalKind | ArgumentKind

  /// The `symbol_kind` names, which are also the VM segment names the code
  /// generator prints for them (except where it maps a field to `this`).
  function KindName(k: SymbolKind): string
  {
    match k
    case FieldKind => "field"
    case StaticKind => "static"
    case LocalKind => "local"
    case ArgumentKind => "argument"
  }

  /// `Symbol` without its name.
  datatype Symbol = Symbol(typ: string, kind: SymbolKind, idx: nat)

  /// What a symbol table stands for: the declared names, the capacity (which
  /// decides when `st_set` grows the table) and the four counters.
  datatype SymTab = SymTab(entries: map<string, Symbol>, capacity: nat,
                           fields: nat, statics: nat, locals: nat, arguments: nat)

  /// The counter of kind `k`.
  function Count(t: SymTab, k: SymbolKind): nat
  {
    match k
    case FieldKind => t.fields
    case StaticKind => t.statics
    case LocalKind => t.locals
    case ArgumentKind => t.arguments
  }

  /// `t` with the counter of kind `k` one higher.
  function Bump(t: SymTab, k: SymbolKind): (r: SymTab)
    ensures r.entries == t.entries && r.capacity == t.capacity
    ensures Count(r, k) == Count(t, k) + 1
    ensures forall other :: other != k ==> Count(r, other) == Count(t, other)
  {
    match k
    case FieldKind => t.(fields := t.fields + 1)
    case StaticKind => t.(statics := t.statics + 1)
    case LocalKind => t.(locals := t.locals + 1)
    case ArgumentKind => t.(arguments := t.arguments + 1)
  }

  /// The size discipline of the table: a power-of-two capacity from 16 up
  /// that fits a `size_t`, at most half of it in use.
  ghost predicate WellSized(t: SymTab)
  {
    Ds.IsPow2(t.capacity) && Ds.INITIAL_CAPACITY <= t.capacity < Ds.SIZE_LIMIT
    && |t.entries| <= t.capacity / 2
  }

  /// The table `st_new` returns.
  function EmptyTable(): (t: SymTab)
    ensures WellSized(t) && t.entries == map[]
    ensures forall k :: Count(t, k) == 0
  {
    assert Ds.IsPow2(16) by { assert Ds.IsPow2(8) by { assert Ds.IsPow2(4) by { assert Ds.IsPow2(2); } } }
    SymTab(map[], Ds.INITIAL_CAPACITY, 0, 0, 0, 0)
  }

  /// `st_get`: the record of `name`, if declared.
  function Lookup(t: SymTab, name: string): Option<Symbol>
  {
    if name in t.entries then Some(t.entries[name]) else None
  }

  /// `st_set`: grow first when at least half full (returning, with nothing
  /// changed, when the doubled capacity would overflow `size_t`); then take
  /// the index from the kind's counter and bump it, and record the name
  /// unless it is already present.
  function Declare(t: SymTab, name: string, typ: string, kind: SymbolKind): (r: SymTab)
    requires WellSized(t)
    ensures WellSized(r)
  {
    var grow := |t.entries| >= t.capacity / 2;
    var cap := if grow then 2 * t.capacity else t.capacity;
    if cap >= Ds.SIZE_LIMIT then t
    else
      assert grow ==> Ds.IsPow2(cap) by { if grow { assert cap / 2 == t.capacity; } }
      var bumped := Bump(t, kind).(capacity := cap);
      if name in t.entries then bumped
      else bumped.(entries := t.entries[name := Symbol(typ, kind, Count(t, kind))])
  }

  /// The capacity `st_set` works with: doubled when at least half full.
  function Grown(t: SymTab): nat
  {
    if |t.entries| >= t.capacity / 2 then 2 * t.capacity else t.capacity
  }

  /// `Declare` as the three steps of `st_set`: grow, bump the counter, put
  /// the record.
  lemma DeclareSteps(t: SymTab, name: string, typ: string, kind: SymbolKind)
    requires WellSized(t) && Grown(t) < Ds.SIZE_LIMIT
    ensures var b := Bump(t.(capacity := Grown(t)), kind);
      Declare(t, name, typ, kind)
        == b.(entries := if name in b.entries then b.entries else b.entries[name := Symbol(typ, kind, Count(t, kind))])
  {
  }

  /// What `st_set` promises. Unless the table cannot grow (and then nothing
  /// changes), the kind's counter goes up by one even for a name already
  /// present, the other counters stay, a new name is recorded with the
  /// counter's old value as its index, and a present name keeps its first
  /// record; no other name changes.
  lemma DeclareSpec(t: SymTab, name: string, typ: string, kind: SymbolKind)
    requires WellSized(t)
    ensures var r := Declare(t, name, typ, kind);
      var stuck := |t.entries| >= t.capacity / 2 && 2 * t.capacity >= Ds.SIZE_LIMIT;
      && (stuck ==> r == t)
      && (!stuck ==> Count(r, kind) == Count(t, kind) + 1)
      && (forall k :: k != kind ==> Count(r, k) == Count(t, k))
      && (!stuck ==> Lookup(r, name) == if name in t.entries then Lookup(t, name) else Some(Symbol(typ, kind, Count(t, kind))))
      && (forall n :: n != name ==> Lookup(r, n) == Lookup(t, n))
      && (!stuck ==> |r.entries| == if name in t.entries then |t.entries| else |t.entries| + 1)
  {
  }

  /// Every record of a kind has an index below the kind's counter, and no
  /// two names of one kind share an index.
  ghost predicate Numbered(t: SymTab)
  {
    && (forall n | n in t.entries :: t.entries[n].idx < Count(t, t.entries[n].kind))
    && (forall a, b | a in t.entries && b in t.entries && a != b && t.entries[a].kind == t.entries[b].kind ::
          t.entries[a].idx != t.entries[b].idx)
  }

  /// `st_set` keeps the numbering: indices stay below their counters and
  /// distinct within a kind.
  lemma DeclareNumbered(t: SymTab, name: string, typ: string, kind: SymbolKind)
    requires WellSized(t) && Numbered(t)
    ensures Numbered(Declare(t, name, typ, kind))
  {
    if Grown(t) >= Ds.SIZE_LIMIT {
      assert Declare(t, name, typ, kind) == t;
    } else {
      var b := Bump(t.(capacity := Grown(t)), kind);
      DeclareSteps(t, name, typ, kind);
      BumpNumbered(t, b, kind);
      if name !in b.entries {
        PutNumbered(b, name, Symbol(typ, kind, Count(t, kind)));
      }
    }
  }

  /// Raising a counter keeps the numbering.
  lemma BumpNumbered(t: SymTab, b: SymTab, kind: SymbolKind)
    requires Numbered(t) && b.entries == t.entries
    requires Count(b, kind) == Count(t, kind) + 1 && forall k :: k != kind ==> Count(b, k) == Count(t, k)
    ensures Numbered(b) && forall n | n in b.entries && b.entries[n].kind == kind :: b.entries[n].idx < Count(b, kind) - 1
  {
    forall n | n in b.entries ensures b.entries[n].idx < Count(b, b.entries[n].kind) {
      assert b.entries[n].idx < Count(t, t.entries[n].kind);
    }
  }

  /// Recording a new name with the last index of its kind keeps the
  /// numbering.
  lemma PutNumbered(b: SymTab, name: string, sym: Symbol)
    requires Numbered(b) && name !in b.entries && sym.idx < Count(b, sym.kind)
    requires forall n | n in b.entries && b.entries[n].kind == sym.kind :: b.entries[n].idx < sym.idx
    ensures Numbered(b.(entries := b.entries[name := sym]))
  {
    var r := b.(entries := b.entries[name := sym]);
    forall a, c | a in r.entries && c in r.entries && a != c && r.entries[a].kind == r.entries[c].kind
      ensures r.entries[a].idx != r.entries[c].idx
    {
      if a == name {
        assert r.entries[c] == b.entries[c];
      } else if c == name {
        assert r.entries[a] == b.entries[a];
      } else {
        assert r.entries[a] == b.entries[a] && r.entries[c] == b.entries[c];
      }
    }
  }

  /// A repeated declaration still uses up an index: after `var int x, x, y;`
  /// the name `y` is local 2, though only two names are recorded.
  lemma DuplicateSkipsIndex(t: SymTab)
    requires t == EmptyTable()
    ensures var r := Declare(Declare(Declare(t, "x", "int", LocalKind), "x", "int", LocalKind), "y", "int", LocalKind);
      && Lookup(r, "x") == Some(Symbol("int", LocalKind, 0))
      && Lookup(r, "y") == Some(Symbol("int", LocalKind, 2))
      && |r.entries| == 2
  {
    var r1 := Declare(t, "x", "int", LocalKind);
    var r2 := Declare(r1, "x", "int", LocalKind);
    var r3 := Declare(r2, "y", "int", LocalKind);
    assert r1.entries == map["x" := Symbol("int", LocalKind, 0)] && r1.locals == 1;
    assert r2.entries == r1.entries && r2.locals == 2;
    assert "y" != "x";
    assert r3.entries == r1.entries["y" := Symbol("int", LocalKind, 2)];
  }

  // ------------------------------------------------------------ the table

  /// A slot array `s` indexed by `where` and holding `length` names, sized
  /// as `WellSized` demands.
  ghost predicate Sound(s: seq<Slot<Symbol>>, where: map<string, nat>, length: nat)
  {
    && Indexed(s, where)
    && length == |where| == |Occupied(s)|
    && Ds.IsPow2(|s|) && Ds.INITIAL_CAPACITY <= |s| < Ds.SIZE_LIMIT
    && length <= |s| / 2
  }

  /// The 16 empty slots `st_new` allocates hold the empty table.
  lemma FreshTable(s: seq<Slot<Symbol>>)
    requires |s| == Ds.INITIAL_CAPACITY && forall j | 0 <= j < |s| :: s[j].Empty?
    ensures Sound(s, map[], 0) && Contents(s, map[]) == map[]
  {
    Fresh(s);
    var t := EmptyTable();
  }

  /// `SymbolTable`.
  class SymbolTable {
    var entries: array<Slot<Symbol>>
    var capacity: nat
    var length: nat
    var fieldIdx: nat
    var staticIdx: nat
    var localIdx: nat
    var argumentIdx: nat
    /// The slot of every declared name.
    ghost var where: map<string, nat>

    ghost predicate Valid()
      reads this, entries
    {
      capacity == entries.Length && Sound(entries[..], where, length)
    }

    ghost function Model(): SymTab
      reads this, entries
      requires Valid()
    {
      SymTab(Contents(entries[..], where), capacity, fieldIdx, staticIdx, localIdx, argumentIdx)
    }

    /// `st_new`.
    constructor ()
      ensures Valid() && Model() == EmptyTable() && fresh(entries)
    {
      entries := new Slot<Symbol>[Ds.INITIAL_CAPACITY](_ => Empty);
      capacity := Ds.INITIAL_CAPACITY;
      length, fieldIdx, staticIdx, localIdx, argumentIdx := 0, 0, 0, 0, 0;
      where := map[];
      new;
      FreshTable(entries[..]);
    }

    /// `st_get`; `None` is the NULL the source returns for an undeclared
    /// name.
    method Get(name: string) returns (sym: Option<Symbol>)
      requires Valid()
      ensures sym == Lookup(Model(), name)
    {
      ghost var e := EmptyExists(entries[..]);
      var i, found := Probe(entries, name, e);
      Located(entries[..], where, name, i);
      if found {
        sym := Some(entries[i].val);
      } else {
        sym := None;
      }
    }

    /// `st_set_entry`: probe `a` for `name`; leave a present name alone,
    /// otherwise store the record in the empty slot the probe stopped at.
    /// `inserted` reports a new name, which is when the source bumps
    /// `*length_ptr` (if it was given one).
    static method SetEntry(a: array<Slot<Symbol>>, name: string, sym: Symbol, ghost where: map<string, nat>)
        returns (inserted: bool, ghost where': map<string, nat>)
      requires Indexed(a[..], where) && |Occupied(a[..])| < a.Length
      modifies a
      ensures inserted <==> name !in where
      ensures Indexed(a[..], where') && where'.Keys == where.Keys + {name}
      ensures |where'| == |where| + if inserted then 1 else 0
      ensures |Occupied(a[..])| == |Occupied(old(a[..]))| + if inserted then 1 else 0
      ensures Contents(a[..], where') == if inserted then Contents(old(a[..]), where)[name := sym]
                                          else Contents(old(a[..]), where)
    {
      ghost var s := a[..];
      ghost var e := EmptyExists(s);
      var i, found := Probe(a, name, e);
      if found {
        KeptKey(s, where, name, i);
        return false, where;
      }
      ghost var w := Added(s, where, name, sym, i);
      a[i] := Full(name, sym);
      assert a[..] == s[i := Full(name, sym)];
      inserted, where' := true, w;
    }

    /// The re-insertion loop of `st_expand`: a fresh, zeroed slot array of
    /// `newCapacity` slots receives every record of `a`, in slot order,
    /// through `st_set_entry` without a length pointer.
    static method Rehash(a: array<Slot<Symbol>>, ghost where: map<string, nat>, newCapacity: nat)
        returns (b: array<Slot<Symbol>>, ghost w: map<string, nat>)
      requires Indexed(a[..], where) && a.Length < newCapacity
      ensures fresh(b) && b.Length == newCapacity
      ensures Indexed(b[..], w) && |w| == |where| == |Occupied(b[..])|
      ensures Contents(b[..], w) == Contents(a[..], where)
    {
      b := new Slot<Symbol>[newCapacity](_ => Empty);
      Fresh(b[..]);
      w := map[];
      CopyStart(a[..], where, b[..]);
      var i := 0;
      while i < a.Length
        invariant i <= a.Length && Copied(a[..], where, b[..], w, i)
        invariant |Occupied(b[..])| == |w| <= i
      {
        var entry := a[i];
        if entry.Full? {
          ghost var t, v := b[..], w;
          KeyNotCopied(a[..], where, v, i);
          var _, w' := SetEntry(b, entry.key, entry.val, w);
          w := w';
          CopyStep(a[..], where, t, v, i, b[..], w);
        } else {
          CopyStep(a[..], where, b[..], w, i, b[..], w);
        }
        i := i + 1;
      }
      CopyDone(a[..], where, b[..], w);
    }

    /// `st_expand`: double the capacity and re-insert every record into a
    /// fresh slot array; fails, changing nothing, when the doubled capacity
    /// overflows `size_t`.
    method Expand() returns (ok: bool)
      requires Valid()
      modifies this
      ensures Valid() && length == old(length)
      ensures unchanged(this`fieldIdx, this`staticIdx, this`localIdx, this`argumentIdx)
      ensures ok <==> 2 * old(capacity) < Ds.SIZE_LIMIT
      ensures ok ==> capacity == 2 * old(capacity) && fresh(entries)
      ensures ok ==> Model().entries == old(Model().entries)
      ensures !ok ==> entries == old(entries) && capacity == old(capacity) && Model() == old(Model())
    {
      var newCapacity := capacity * 2;
      if newCapacity >= Ds.SIZE_LIMIT {
        return false;
      }
      Resize(newCapacity);
      ok := true;
    }

    /// The part of `st_expand` past the overflow check: allocate the larger
    /// slot array, re-insert every record and install the new array.
    method Resize(newCapacity: nat)
      requires Valid() && newCapacity == 2 * capacity < Ds.SIZE_LIMIT
      modifies this
      ensures Valid() && length == old(length) && capacity == newCapacity && fresh(entries)
      ensures unchanged(this`fieldIdx, this`staticIdx, this`localIdx, this`argumentIdx)
      ensures Model().entries == old(Model().entries)
    {
      ghost var s := entries[..];
      var b, w := Rehash(entries, where, newCapacity);
      assert Sound(b[..], w, length) by { assert newCapacity / 2 == capacity; }
      Install(b, w);
    }

    /// The last lines of `st_expand`: the new slot array replaces the old.
    method Install(b: array<Slot<Symbol>>, ghost w: map<string, nat>)
      requires Valid() && Sound(b[..], w, length) && Contents(b[..], w) == Contents(entries[..], where)
      modifies this
      ensures Valid() && length == old(length) && capacity == b.Length && entries == b
      ensures unchanged(this`fieldIdx, this`staticIdx, this`localIdx, this`argumentIdx)
      ensures Model().entries == old(Model().entries)
    {
      ghost var t := b[..];
      entries, capacity, where := b, b.Length, w;
      assert entries[..] == t;
    }

    /// The counter switch of `st_set`: the kind's counter before the bump.
    method TakeIndex(kind: SymbolKind) returns (idx: nat)
      requires Valid()
      modifies this`fieldIdx, this`staticIdx, this`localIdx, this`argumentIdx
      ensures Valid() && unchanged(this`entries, this`capacity, this`length) && where == old(where)
      ensures idx == Count(old(Model()), kind)
      ensures Model() == Bump(old(Model()), kind)
    {
      ghost var m := Model();
      ghost var s := entries[..];
      match kind {
        case FieldKind =>
          idx := fieldIdx; fieldIdx := fieldIdx + 1;
          assert entries[..] == s;
          assert Model() == m.(fields := m.fields + 1);
        case StaticKind =>
          idx := staticIdx; staticIdx := staticIdx + 1;
          assert entries[..] == s;
          assert Model() == m.(statics := m.statics + 1);
        case LocalKind =>
          idx := localIdx; localIdx := localIdx + 1;
          assert entries[..] == s;
          assert Model() == m.(locals := m.locals + 1);
        case ArgumentKind =>
          idx := argumentIdx; argumentIdx := argumentIdx + 1;
          assert entries[..] == s;
          assert Model() == m.(arguments := m.arguments + 1);
      }
    }

    /// The call `st_set_entry(self->entries, self->capacity, name, type,
    /// kind, idx, &self->length)` that ends `st_set`, on a table with room
    /// to spare.
    method Put(name: string, sym: Symbol)
      requires Valid() && length < capacity / 2
      modifies this, entries
      ensures Valid() && entries == old(entries) && capacity == old(capacity)
      ensures unchanged(this`fieldIdx, this`staticIdx, this`localIdx, this`argumentIdx)
      ensures Model() == old(Model()).(entries := if name in old(Model().entries) then old(Model().entries)
                                                   else old(Model().entries)[name := sym])
    {
      var inserted;
      ghost var w;
      inserted, w := SetEntry(entries, name, sym, where);
      ghost var s' := entries[..];
      where, length := w, if inserted then length + 1 else length;
      assert entries[..] == s';
    }

    /// `st_set`.
    method Set(name: string, typ: string, kind: SymbolKind)
      requires Valid()
      modifies this, entries
      ensures Valid() && (entries == old(entries) || fresh(entries))
      ensures Model() == Declare(old(Model()), name, typ, kind)
    {
      ghost var m0 := Model();
      var ok := Grow();
      if !ok {
        return;
      }
      var idx := TakeIndex(kind);
      Put(name, Symbol(typ, kind, idx));
      DeclareSteps(m0, name, typ, kind);
    }

    /// The growth check at the head of `st_set`.
    method Grow() returns (ok: bool)
      requires Valid()
      modifies this
      ensures Valid() && (entries == old(entries) || fresh(entries))
      ensures ok <==> Grown(old(Model())) < Ds.SIZE_LIMIT
      ensures !ok ==> Model() == old(Model())
      ensures ok ==> length < capacity / 2 && Model() == old(Model()).(capacity := Grown(old(Model())))
    {
      assert |Model().entries| == length;
      ok := true;
      if length >= capacity / 2 {
        ok := Expand();
      }
    }
  }

  /// A name about to be copied by the re-insertion loop is not yet among the
  /// copied names.
  lemma KeyNotCopied(s: seq<Slot<Symbol>>, where: map<string, nat>, w: map<string, nat>, i: nat)
    requires i < |s| && s[i].Full? && Indexed(s, where)
    requires forall k | k in where :: where[k] < i <==> k in w
    requires w.Keys <= where.Keys
    ensures s[i].key !in w
  {
  }
}

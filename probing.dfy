/// The open-addressing scheme shared by the hash table of src/ds.c (copied
/// into 7/assembler.c and src/assembler.c) and the symbol table of
/// src/compiler.c: 64-bit FNV-1a hashing, a home slot taken from the hash,
/// and linear probing that wraps from the last slot to slot 0.
module OpenAddressing {
  import opened CLib

  const FNV_OFFSET: bv64 := 14695981039346656037
  const FNV_PRIME: bv64 := 1099511628211

  /// `(uint64_t)(unsigned char)c`.
  function Byte(c: char): bv64 { ((c as int) % 256) as bv64 }

  /// FNV-1a over the bytes of `key`: xor in a byte, then multiply by the
  /// prime, modulo 2^64.
  function Fnv(key: string): bv64
  {
    if key == [] then FNV_OFFSET else FnvStep(Fnv(key[..|key| - 1]), key[|key| - 1])
  }

  /// One round of FNV-1a.
  function FnvStep(h: bv64, c: char): bv64 { (h ^ Byte(c)) * FNV_PRIME }

  /// `ht_hash` (src/ds.c) and `st_hash` (src/compiler.c).
  method Hash(key: string) returns (h: bv64)
    ensures h == Fnv(key)
  {
    h := FNV_OFFSET;
    var i := 0;
    while i < |key|
      invariant 0 <= i <= |key|
      invariant h == Fnv(key[..i])
    {
      assert key[..i + 1][..i] == key[..i];
      h := FnvStep(h, key[i]);
      i := i + 1;
    }
    assert key[..i] == key;
  }

  datatype Slot<V> = Empty | Full(key: string, val: V)

  /// The slot probing starts from. The source computes `hash & (capacity - 1)`,
  /// which is this remainder because every table keeps its capacity a power of two.
  function Home(key: string, cap: nat): (h: nat)
    requires cap > 0
    ensures h < cap
  {
    (Fnv(key) as int) % cap
  }

  /// The slot `d` steps after `h`, wrapping to 0 past the last slot.
  function Spot(h: nat, d: nat, cap: nat): (j: nat)
    requires h < cap && d < cap
    ensures j < cap
  {
    if h + d < cap then h + d else h + d - cap
  }

  /// How many wrapping steps lead from `h` to `j`.
  function Dist(h: nat, j: nat, cap: nat): (d: nat)
    requires h < cap && j < cap
    ensures d < cap && Spot(h, d, cap) == j
  {
    if h <= j then j - h else j + cap - h
  }

  ghost function Occupied<V>(s: seq<Slot<V>>): set<nat>
  {
    set j: nat | j < |s| && s[j].Full?
  }

  /// `where` names the slot of every stored key; every full slot is named; and
  /// no key sits past an empty slot on its probe path.
  ghost predicate Indexed<V>(s: seq<Slot<V>>, where: map<string, nat>)
  {
    && |s| > 0
    && (forall k | k in where :: where[k] < |s| && s[where[k]].Full? && s[where[k]].key == k)
    && (forall j | 0 <= j < |s| && s[j].Full? :: s[j].key in where && where[s[j].key] == j)
    && (forall k, d | k in where && 0 <= d < Dist(Home(k, |s|), where[k], |s|) ::
          s[Spot(Home(k, |s|), d, |s|)].Full?)
  }

  /// Every slot probed before slot `i` on the way from `key`'s home is full.
  ghost predicate OnProbePath<V>(s: seq<Slot<V>>, key: string, i: nat)
    requires i < |s|
  {
    forall d | 0 <= d < Dist(Home(key, |s|), i, |s|) :: s[Spot(Home(key, |s|), d, |s|)].Full?
  }

  /// The map a slot array stands for.
  ghost function Contents<V>(s: seq<Slot<V>>, where: map<string, nat>): (m: map<string, V>)
    requires Indexed(s, where)
    ensures m.Keys == where.Keys
  {
    map k | k in where :: s[where[k]].val
  }

  /// A slot array whose slots are all full has as many full slots as slots.
  lemma {:induction false} AllFullCard<V>(s: seq<Slot<V>>)
    requires forall j | 0 <= j < |s| :: s[j].Full?
    ensures |Occupied(s)| == |s|
  {
    if s != [] {
      var t := s[..|s| - 1];
      AllFullCard(t);
      assert Occupied(s) == Occupied(t) + {|s| - 1};
    }
  }

  /// A slot array with fewer full slots than slots has an empty slot.
  lemma EmptyExists<V>(s: seq<Slot<V>>) returns (e: nat)
    requires |Occupied(s)| < |s|
    ensures e < |s| && s[e].Empty?
  {
    if forall j | 0 <= j < |s| :: s[j].Full? {
      AllFullCard(s);
      assert false;
    }
    var j :| 0 <= j < |s| && !s[j].Full?;
    e := j;
  }

  /// Every slot probed before slot `i` on the way from `key`'s home holds
  /// another key.
  ghost predicate PassedOthers<V>(s: seq<Slot<V>>, key: string, i: nat)
    requires i < |s|
  {
    forall d | 0 <= d < Dist(Home(key, |s|), i, |s|) ::
      s[Spot(Home(key, |s|), d, |s|)].Full? && s[Spot(Home(key, |s|), d, |s|)].key != key
  }

  /// The linear-probing loop shared by `ht_get`/`ht_set_entry` and
  /// `st_get`/`st_set_entry`: from the home slot, step over full slots holding
  /// other keys until the key or an empty slot is reached. The ghost `e` is an
  /// empty slot, whose existence makes the loop terminate.
  method Probe<V>(a: array<Slot<V>>, key: string, ghost e: nat) returns (i: nat, found: bool)
    requires e < a.Length && a[e].Empty?
    ensures i < a.Length && PassedOthers(a[..], key, i)
    ensures found ==> a[i].Full? && a[i].key == key
    ensures !found ==> a[i].Empty?
  {
    var n := a.Length;
    var hash := Hash(key);
    i := (hash as int) % n;
    ghost var h := Home(key, n);
    ghost var d := 0;
    while a[i].Full?
      invariant d <= Dist(h, e, n) && i == Spot(h, d, n)
      invariant forall d' | 0 <= d' < d :: a[Spot(h, d', n)].Full? && a[Spot(h, d', n)].key != key
      decreases n - d
    {
      if a[i].key == key {
        found := true;
        return;
      }
      assert i != e;
      i := if i + 1 >= n then 0 else i + 1;
      d := d + 1;
    }
    found := false;
  }

  /// What a finished probe tells about the index: it stopped on the key's own
  /// slot, or on an empty slot that proves the key absent.
  lemma Located<V>(s: seq<Slot<V>>, where: map<string, nat>, key: string, i: nat)
    requires Indexed(s, where) && i < |s| && PassedOthers(s, key, i)
    requires (s[i].Full? && s[i].key == key) || s[i].Empty?
    ensures key in where <==> s[i].Full?
    ensures s[i].Full? ==> where[key] == i
    ensures s[i].Empty? ==> OnProbePath(s, key, i)
  {
    if s[i].Empty? && key in where {
      var d := Dist(Home(key, |s|), i, |s|);
      var dj := Dist(Home(key, |s|), where[key], |s|);
      if dj < d { assert false; } else if dj > d { assert false; } else { assert false; }
    }
  }

  /// Storing a new key in the empty slot its probe reached keeps the index,
  /// fills one more slot and adds the mapping.
  lemma Insert<V>(s: seq<Slot<V>>, where: map<string, nat>, key: string, val: V, i: nat)
    requires Indexed(s, where) && key !in where
    requires i < |s| && s[i].Empty? && OnProbePath(s, key, i)
    ensures Indexed(s[i := Full(key, val)], where[key := i])
    ensures |Occupied(s[i := Full(key, val)])| == |Occupied(s)| + 1
    ensures Contents(s[i := Full(key, val)], where[key := i]) == Contents(s, where)[key := val]
  {
    InsertIndexed(s, where, key, val, i);
    InsertOccupied(s, key, val, i);
  }

  lemma InsertIndexed<V>(s: seq<Slot<V>>, where: map<string, nat>, key: string, val: V, i: nat)
    requires Indexed(s, where) && key !in where
    requires i < |s| && s[i].Empty? && OnProbePath(s, key, i)
    ensures Indexed(s[i := Full(key, val)], where[key := i])
  {
    var s' := s[i := Full(key, val)];
    var w' := where[key := i];
    var n := |s|;
    forall k | k in w'
      ensures w'[k] < n && s'[w'[k]].Full? && s'[w'[k]].key == k
    {
      if k != key { assert s[where[k]].Full?; }
    }
    forall j | 0 <= j < n && s'[j].Full?
      ensures s'[j].key in w' && w'[s'[j].key] == j
    {
      if j != i { assert s[j].Full? && s[j].key in where; }
    }
    forall k, d | k in w' && 0 <= d < Dist(Home(k, n), w'[k], n)
      ensures s'[Spot(Home(k, n), d, n)].Full?
    {
      if k != key { assert s[Spot(Home(k, n), d, n)].Full?; }
    }
  }

  lemma InsertOccupied<V>(s: seq<Slot<V>>, key: string, val: V, i: nat)
    requires i < |s| && s[i].Empty?
    ensures |Occupied(s[i := Full(key, val)])| == |Occupied(s)| + 1
  {
    assert Occupied(s[i := Full(key, val)]) == Occupied(s) + {i};
  }

  /// Overwriting the value of a stored key keeps the index and the full
  /// slots, and changes the mapping of that key only.
  lemma Overwrite<V>(s: seq<Slot<V>>, where: map<string, nat>, key: string, val: V)
    requires Indexed(s, where) && key in where
    ensures Indexed(s[where[key] := Full(key, val)], where)
    ensures |Occupied(s[where[key] := Full(key, val)])| == |Occupied(s)|
    ensures Contents(s[where[key] := Full(key, val)], where) == Contents(s, where)[key := val]
  {
    var s' := s[where[key] := Full(key, val)];
    assert Occupied(s') == Occupied(s);
    forall k, d | k in where && 0 <= d < Dist(Home(k, |s|), where[k], |s|)
      ensures s'[Spot(Home(k, |s|), d, |s|)].Full?
    {
      assert s[Spot(Home(k, |s|), d, |s|)].Full?;
    }
  }

  /// One step of `ht_set_entry` on slot values: the probe for `key` stopped at
  /// slot `i`; writing the entry there overwrites the key's value or adds the
  /// key, keeping the index.
  lemma Placed<V>(s: seq<Slot<V>>, where: map<string, nat>, key: string, val: V, i: nat)
      returns (s': seq<Slot<V>>, w: map<string, nat>)
    requires Indexed(s, where) && i < |s| && PassedOthers(s, key, i)
    requires (s[i].Full? && s[i].key == key) || s[i].Empty?
    ensures s' == s[i := Full(key, val)]
    ensures s[i].Full? <==> key in where
    ensures Indexed(s', w) && w.Keys == where.Keys + {key}
    ensures |w| == |where| + if s[i].Full? then 0 else 1
    ensures |Occupied(s')| == |Occupied(s)| + if s[i].Full? then 0 else 1
    ensures Contents(s', w) == Contents(s, where)[key := val]
  {
    Located(s, where, key, i);
    s' := s[i := Full(key, val)];
    if s[i].Full? {
      Overwrite(s, where, key, val);
      w := where;
    } else {
      Insert(s, where, key, val, i);
      w := where[key := i];
    }
  }

  /// For a table that keeps the first record of a key: the probe found the
  /// key, which is already stored.
  lemma KeptKey<V>(s: seq<Slot<V>>, where: map<string, nat>, key: string, i: nat)
    requires Indexed(s, where) && i < |s| && PassedOthers(s, key, i)
    requires s[i].Full? && s[i].key == key
    ensures key in where && where.Keys + {key} == where.Keys
  {
    Located(s, where, key, i);
  }

  /// The probe stopped at an empty slot: the key is new and goes there.
  lemma Added<V>(s: seq<Slot<V>>, where: map<string, nat>, key: string, val: V, i: nat)
      returns (w: map<string, nat>)
    requires Indexed(s, where) && i < |s| && PassedOthers(s, key, i) && s[i].Empty?
    ensures key !in where
    ensures Indexed(s[i := Full(key, val)], w) && w.Keys == where.Keys + {key} && |w| == |where| + 1
    ensures |Occupied(s[i := Full(key, val)])| == |Occupied(s)| + 1
    ensures Contents(s[i := Full(key, val)], w) == Contents(s, where)[key := val]
  {
    Located(s, where, key, i);
    Insert(s, where, key, val, i);
    w := where[key := i];
  }

  /// Rehashing has copied the entries of the slots `0 .. i-1` of `s` into `t`.
  ghost predicate Copied<V>(s: seq<Slot<V>>, where: map<string, nat>, t: seq<Slot<V>>, w: map<string, nat>, i: nat)
  {
    && Indexed(s, where) && Indexed(t, w)
    && (forall k | k in where :: where[k] < i <==> k in w)
    && w.Keys <= where.Keys
    && (forall k | k in w :: t[w[k]].val == s[where[k]].val)
  }

  lemma CopyStart<V>(s: seq<Slot<V>>, where: map<string, nat>, t: seq<Slot<V>>)
    requires Indexed(s, where) && Indexed(t, map[])
    ensures Copied(s, where, t, map[], 0)
  {
  }

  /// Copying the entry of slot `i` (if any) extends what has been copied.
  lemma CopyStep<V>(s: seq<Slot<V>>, where: map<string, nat>, t: seq<Slot<V>>, w: map<string, nat>,
                    i: nat, t': seq<Slot<V>>, w': map<string, nat>)
    requires Copied(s, where, t, w, i) && i < |s|
    requires s[i].Empty? ==> t' == t && w' == w
    requires s[i].Full? ==> Indexed(t', w') && w'.Keys == w.Keys + {s[i].key}
                            && Contents(t', w') == Contents(t, w)[s[i].key := s[i].val]
    ensures Copied(s, where, t', w', i + 1)
  {
    if s[i].Full? {
      var key := s[i].key;
      forall k | k in w' ensures t'[w'[k]].val == s[where[k]].val {
        assert Contents(t', w')[k] == t'[w'[k]].val;
        if k != key { assert Contents(t, w)[k] == t[w[k]].val; }
      }
    }
  }

  /// Once every slot is copied, `t` stands for the same map as `s`.
  lemma CopyDone<V>(s: seq<Slot<V>>, where: map<string, nat>, t: seq<Slot<V>>, w: map<string, nat>)
    requires Copied(s, where, t, w, |s|)
    ensures Contents(t, w) == Contents(s, where) && |w| == |where|
  {
    assert w.Keys == where.Keys;
  }

  /// A freshly allocated (`calloc`ed) slot array is an index of the empty map.
  lemma Fresh<V>(s: seq<Slot<V>>)
    requires |s| > 0 && forall j | 0 <= j < |s| :: s[j].Empty?
    ensures Indexed(s, map[]) && Occupied(s) == {}
  {
    assert Occupied(s) == {};
  }

  /// The keys held in slots `0 .. n-1`.
  ghost function KeysBefore<V>(s: seq<Slot<V>>, n: nat): set<string>
  {
    set j | 0 <= j < n && j < |s| && s[j].Full? :: s[j].key
  }

  lemma KeysBeforeStep<V>(s: seq<Slot<V>>, n: nat)
    requires n < |s|
    ensures s[n].Empty? ==> KeysBefore(s, n + 1) == KeysBefore(s, n)
    ensures s[n].Full? ==> KeysBefore(s, n + 1) == KeysBefore(s, n) + {s[n].key}
  {
  }

  /// A key is held by one slot only, so it is not among the keys before it.
  lemma KeyNotBefore<V>(s: seq<Slot<V>>, where: map<string, nat>, i: nat)
    requires Indexed(s, where) && i < |s| && s[i].Full?
    ensures s[i].key !in KeysBefore(s, i)
  {
  }

  /// All slots together hold exactly the indexed keys.
  lemma KeysBeforeAll<V>(s: seq<Slot<V>>, where: map<string, nat>)
    requires Indexed(s, where)
    ensures KeysBefore(s, |s|) == where.Keys
  {
    forall k | k in where ensures k in KeysBefore(s, |s|) {
      assert s[where[k]].key == k;
    }
  }
}

/// The symbol table of 6/hackasm.c and its `addrToStr`: 16 buckets chosen by
/// an sdbm-style hash, each a list of entries with new ones appended at the
/// tail, and the routine that writes the low bits of an address as '0'/'1'
/// characters. Each bucket's linked list is a sequence here.
module HackTable {
  import opened CLib

  const N_BUCKETS: nat := 16
  const WORD: nat := 0x1_0000_0000

  /// A signed C `char` holding the low byte of `c`, promoted to `int`.
  function SignedChar(c: char): (r: int)
    ensures -128 <= r < 128 && (r - c as int) % 256 == 0
  {
    var b := c as int % 256;
    if b < 128 then b else b - 256
  }

  /// `hash = *symbol++ + (hash << 6) + (hash << 16) - hash` on an `unsigned`.
  function HashStep(hash: u32, c: char): u32
  {
    (SignedChar(c) + hash * 64 + hash * 65536 - hash) % WORD
  }

  /// The hash of `s`, its characters folded in from the first.
  function Sdbm(s: string): u32
  {
    if s == [] then 0 else HashStep(Sdbm(s[..|s| - 1]), s[|s| - 1])
  }

  /// The bucket `getBucket` picks for `s` in a table of 16 buckets.
  function Bucket(s: string): nat
  {
    Sdbm(s) % N_BUCKETS
  }

  /// `getBucket(symbol, 16)`: the loop over the characters of the key.
  method GetBucket(symbol: string, buckets: int) returns (b: int)
    requires buckets == N_BUCKETS
    ensures 0 <= b < N_BUCKETS && b == Bucket(symbol)
  {
    var hash: u32 := 0;
    var i := 0;
    while i < |symbol|
      invariant i <= |symbol| && hash == Sdbm(symbol[..i])
    {
      assert symbol[..i + 1][..i] == symbol[..i];
      hash := HashStep(hash, symbol[i]);
      i := i + 1;
    }
    assert symbol[..i] == symbol;
    b := hash % buckets;
  }

  datatype Entry = Entry(symbol: string, address: u32)

  /// The address stored for `symbol`, 0 when it is absent.
  function Lookup(m: map<string, u32>, symbol: string): u32
  {
    if symbol in m then m[symbol] else 0
  }

  /// The buckets `bs` hold the map `m`: the bucket of every key is the one
  /// its hash picks, with the address `m` gives it, no key appears twice in
  /// a bucket, and every key of `m` is held.
  ghost predicate Chained(bs: seq<seq<Entry>>, m: map<string, u32>)
  {
    |bs| == N_BUCKETS && Placed(bs, m) && Distinct(bs) && Covers(bs, m)
  }

  ghost predicate Placed(bs: seq<seq<Entry>>, m: map<string, u32>)
    requires |bs| == N_BUCKETS
  {
    forall b, i | 0 <= b < N_BUCKETS && 0 <= i < |bs[b]| ::
      Bucket(bs[b][i].symbol) == b && bs[b][i].symbol in m && m[bs[b][i].symbol] == bs[b][i].address
  }

  ghost predicate Distinct(bs: seq<seq<Entry>>)
    requires |bs| == N_BUCKETS
  {
    forall b, i, j | 0 <= b < N_BUCKETS && 0 <= i < j < |bs[b]| :: bs[b][i].symbol != bs[b][j].symbol
  }

  ghost predicate Covers(bs: seq<seq<Entry>>, m: map<string, u32>)
    requires |bs| == N_BUCKETS
  {
    forall k | k in m :: Held(bs[Bucket(k)], k)
  }

  /// The buckets after `__SymbolTable_add` has overwritten the entry at
  /// `found` or appended a new one.
  function Added(bs: seq<seq<Entry>>, symbol: string, address: u32, found: Option<nat>): (r: seq<seq<Entry>>)
    requires |bs| == N_BUCKETS
    requires found.Some? ==> found.value < |bs[Bucket(symbol)]|
    ensures |r| == N_BUCKETS
  {
    var list := bs[Bucket(symbol)];
    bs[Bucket(symbol) := if found.Some? then list[found.value := Entry(symbol, address)] else list + [Entry(symbol, address)]]
  }

  /// Overwriting the entry of a held key, or appending one for a new key,
  /// keeps the buckets chained for the updated map.
  lemma AddChained(bs: seq<seq<Entry>>, m: map<string, u32>, symbol: string, address: u32, found: Option<nat>)
    requires Chained(bs, m)
    requires found.Some? ==> found.value < |bs[Bucket(symbol)]| && bs[Bucket(symbol)][found.value].symbol == symbol
    requires found.None? ==> !Held(bs[Bucket(symbol)], symbol)
    ensures Chained(Added(bs, symbol, address, found), m[symbol := address])
  {
    if found.None? {
      assert symbol !in m;
    }
    AddPlaced(bs, m, symbol, address, found);
    AddDistinct(bs, m, symbol, address, found);
    AddCovers(bs, m, symbol, address, found);
  }

  lemma AddPlaced(bs: seq<seq<Entry>>, m: map<string, u32>, symbol: string, address: u32, found: Option<nat>)
    requires |bs| == N_BUCKETS && Placed(bs, m) && Distinct(bs)
    requires found.Some? ==> found.value < |bs[Bucket(symbol)]| && bs[Bucket(symbol)][found.value].symbol == symbol
    requires found.None? ==> symbol !in m
    ensures Placed(Added(bs, symbol, address, found), m[symbol := address])
  {
    var bs': seq<seq<Entry>> := Added(bs, symbol, address, found);
    var m' := m[symbol := address];
    forall b: int, i: int | 0 <= b < N_BUCKETS && 0 <= i < |bs'[b]|
      ensures Bucket(bs'[b][i].symbol) == b && bs'[b][i].symbol in m' && m'[bs'[b][i].symbol] == bs'[b][i].address
    {
      if b == Bucket(symbol) && ((found.Some? && i == found.value) || (found.None? && i == |bs[b]|)) {
        assert bs'[b][i] == Entry(symbol, address);
      } else {
        assert bs'[b][i] == bs[b][i];
        if b == Bucket(symbol) && found.Some? {
          assert bs[b][i].symbol != bs[b][found.value].symbol;
        }
      }
    }
  }

  lemma AddDistinct(bs: seq<seq<Entry>>, m: map<string, u32>, symbol: string, address: u32, found: Option<nat>)
    requires |bs| == N_BUCKETS && Placed(bs, m) && Distinct(bs)
    requires found.Some? ==> found.value < |bs[Bucket(symbol)]| && bs[Bucket(symbol)][found.value].symbol == symbol
    requires found.None? ==> symbol !in m
    ensures Distinct(Added(bs, symbol, address, found))
  {
    var bs': seq<seq<Entry>> := Added(bs, symbol, address, found);
    forall b: int, i: int, j: int | 0 <= b < N_BUCKETS && 0 <= i < j < |bs'[b]|
      ensures bs'[b][i].symbol != bs'[b][j].symbol
    {
      if b == Bucket(symbol) && found.None? && j == |bs[b]| {
        assert bs'[b][i] == bs[b][i];
      }
    }
  }

  lemma AddCovers(bs: seq<seq<Entry>>, m: map<string, u32>, symbol: string, address: u32, found: Option<nat>)
    requires |bs| == N_BUCKETS && Covers(bs, m)
    requires found.Some? ==> found.value < |bs[Bucket(symbol)]| && bs[Bucket(symbol)][found.value].symbol == symbol
    ensures Covers(Added(bs, symbol, address, found), m[symbol := address])
  {
    var bs': seq<seq<Entry>> := Added(bs, symbol, address, found);
    forall k | k in m[symbol := address]
      ensures Held(bs'[Bucket(k)], k)
    {
      var b := Bucket(symbol);
      if k != symbol {
        var p :| 0 <= p < |bs[Bucket(k)]| && bs[Bucket(k)][p].symbol == k;
        assert bs'[Bucket(k)][p].symbol == k;
      } else if found.Some? {
        assert bs'[b][found.value].symbol == k;
      } else {
        assert bs'[b][|bs[b]|].symbol == k;
      }
    }
  }

  /// `struct SymbolTable` with its `__heads`/`__tails` lists.
  class SymbolTable {
    var buckets: array<seq<Entry>>
    ghost var contents: map<string, u32>

    ghost predicate Valid()
      reads this, buckets
    {
      buckets.Length == N_BUCKETS && Chained(buckets[..], contents)
    }

    /// `SymbolTable_new`: 16 empty buckets.
    constructor ()
      ensures Valid() && contents == map[] && fresh(buckets)
      ensures forall b | 0 <= b < N_BUCKETS :: buckets[b] == []
    {
      buckets := new seq<Entry>[N_BUCKETS](_ => []);
      contents := map[];
    }

    /// `__SymbolTable_find`: the position of `symbol` in bucket `bucket`.
    method Find(symbol: string, bucket: int) returns (found: Option<nat>)
      requires Valid() && 0 <= bucket < N_BUCKETS
      ensures found.Some? ==> found.value < |buckets[bucket]| && buckets[bucket][found.value].symbol == symbol
      ensures found.None? <==> !Held(buckets[bucket], symbol)
    {
      var list := buckets[bucket];
      var i := 0;
      while i < |list|
        invariant i <= |list| && forall p | 0 <= p < i :: list[p].symbol != symbol
      {
        if list[i].symbol == symbol {
          return Some(i);
        }
        i := i + 1;
      }
      return None;
    }

    /// `__SymbolTable_get`: the address of `symbol`, 0 when absent.
    method Get(symbol: string) returns (address: u32)
      requires Valid()
      ensures address == Lookup(contents, symbol)
    {
      var bucket := GetBucket(symbol, N_BUCKETS);
      var found := Find(symbol, bucket);
      if found.None? {
        assert symbol !in contents;
        return 0;
      }
      return buckets[bucket][found.value].address;
    }

    /// `__SymbolTable_add`: overwrite the address of a present `symbol` in
    /// place, or append a new entry at the tail of its bucket.
    method Add(symbol: string, address: u32)
      requires Valid()
      modifies this, buckets
      ensures Valid() && buckets == old(buckets) && contents == old(contents)[symbol := address]
      ensures forall b | 0 <= b < N_BUCKETS && b != Bucket(symbol) :: buckets[b] == old(buckets[b])
      ensures symbol !in old(contents) ==>
        buckets[Bucket(symbol)] == old(buckets[Bucket(symbol)]) + [Entry(symbol, address)]
      ensures symbol in old(contents) ==> |buckets[Bucket(symbol)]| == old(|buckets[Bucket(symbol)]|)
    {
      var bucket := GetBucket(symbol, N_BUCKETS);
      var found := Find(symbol, bucket);
      AddChained(buckets[..], contents, symbol, address, found);
      ghost var expected := Added(buckets[..], symbol, address, found);
      var list := buckets[bucket];
      if found.Some? {
        buckets[bucket] := list[found.value := Entry(symbol, address)];
      } else {
        buckets[bucket] := list + [Entry(symbol, address)];
      }
      assert buckets[..] == expected;
      contents := contents[symbol := address];
    }
  }

  /// `symbol` is the key of an entry of `list`.
  ghost predicate Held(list: seq<Entry>, symbol: string)
  {
    exists p :: 0 <= p < |list| && list[p].symbol == symbol
  }

  // ---------------------------------------------------------------- addrToStr

  /// The characters from position `w - b` of the `w`-bit string of `n` are
  /// its `b`-bit string.
  lemma {:induction false} BitsSuffix(n: int, w: nat, b: nat)
    requires b <= w
    ensures Bits(n, w)[w - b..] == Bits(n, b)
    decreases w
  {
    if b == 0 {
    } else {
      BitsSuffix(n / 2, w - 1, b - 1);
      var r := Bits(n / 2, w - 1);
      assert Bits(n, w)[w - b..] == r[w - b..] + [BitChar(n % 2)];
    }
  }

  /// Two values that differ by a multiple of 2^w have the same low `w` bits.
  lemma {:induction false} BitsCongruent(a: int, b: int, k: int, w: nat)
    requires a == b + k * Pow2(w)
    ensures Bits(a, w) == Bits(b, w)
    decreases w
  {
    if w > 0 {
      var p := Pow2(w - 1);
      assert k * Pow2(w) == 2 * (k * p);
      ModUnique(a, 2, b / 2 + k * p, b % 2);
      BitsCongruent(a / 2, b / 2, k, w - 1);
    }
  }

  /// `addrToStr(str, num, bits)`: the 32 bits of `num` are written into a
  /// buffer from the lowest (at its end) up, shifting `num` right each time,
  /// and the last `bits` of them are copied out. The result is the low `bits`
  /// bits of `num`, most significant first. The source never writes the
  /// buffer's 33rd byte, so its `strcpy` has no terminator to stop at; the
  /// model assumes one there.
  method AddrToStr(num: int, bits: nat) returns (str: string)
    requires INT_MIN <= num <= INT_MAX && bits <= 32
    ensures str == Bits(num, bits)
  {
    var tmp := new char[32];
    var n := num;
    var i := 32;
    while i > 0
      invariant 0 <= i <= 32
      invariant Bits(num, 32) == Bits(n, i) + tmp[i..]
    {
      tmp[i - 1] := BitChar(n % 2);
      assert tmp[i - 1..] == [BitChar(n % 2)] + tmp[i..];
      n := n / 2;
      i := i - 1;
    }
    BitsSuffix(num, 32, bits);
    str := tmp[32 - bits..];
  }

  /// The bits printed for an `unsigned` passed to `addrToStr`'s `int`
  /// parameter are its own low bits.
  lemma WrapIntBits(x: int, w: nat)
    requires w <= 32
    ensures Bits(WrapInt(x), w) == Bits(x, w)
  {
    var y := x - INT_MIN;
    var q, m := y / WORD, y % WORD;
    DivMod(y, WORD);
    assert WrapInt(x) == x - q * WORD;
    var c := Pow2(32 - w);
    Pow2Split(w);
    MulAssoc(q, c, Pow2(w));
    var e := q * c;
    assert e * Pow2(w) == q * WORD;
    NegMul(e, Pow2(w));
    BitsCongruent(WrapInt(x), x, -e, w);
  }

  lemma DivMod(y: int, d: nat)
    requires d > 0
    ensures y == (y / d) * d + y % d
  {
  }

  lemma NegMul(a: int, b: int)
    ensures (-a) * b == -(a * b)
  {
  }

  lemma MulAssoc(a: int, b: int, c: int)
    ensures a * (b * c) == (a * b) * c
  {
  }

  /// 2^32 is 2^(32-w) times 2^w.
  lemma Pow2Split(w: nat)
    requires w <= 32
    ensures WORD == Pow2(32 - w) * Pow2(w)
  {
    Pow2Add(32 - w, w);
    Pow2Word();
  }

  lemma {:induction false} Pow2Add(a: nat, b: nat)
    ensures Pow2(a + b) == Pow2(a) * Pow2(b)
    decreases a
  {
    if a > 0 {
      Pow2Add(a - 1, b);
    }
  }

  lemma Pow2Word()
    ensures Pow2(32) == WORD
  {
    assert Pow2(4) == 16;
    Pow2Add(4, 4);
    assert Pow2(8) == 256;
    Pow2Add(8, 8);
    assert Pow2(16) == 65536;
    Pow2Add(16, 16);
  }
}

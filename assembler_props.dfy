/// Properties of the assembler model of 7/assembler.c and src/assembler.c:
/// the words it prints, how an A-instruction is resolved, what pass 1 binds
/// a label to, and when each pass stops.
module AssemblerProps {
  import opened CLib
  import opened Ds
  import opened AsmLines
  import opened Assembler

  /// 2^32, the modulus of `unsigned` arithmetic.
  const WORD: nat := 0x1_0000_0000

  // ------------------------------------------------------------ helpers

  /// `ht_set` can only fail at capacity 2^63, which takes 2^62 keys.
  lemma StoreSucceeds(t: Table, key: string, value: u32)
    requires WellSized(t) && |t.entries| < SIZE_LIMIT / 4
    ensures Store(t, key, value).1
  {
  }

  lemma ModAddLeft(a: int, n: int)
    ensures (a % WORD + n) % WORD == (a + n) % WORD
  {
    var q := a / WORD;
    assert a == q * WORD + a % WORD;
    var b := a % WORD + n;
    ModUnique(a + n, WORD, q + b / WORD, b % WORD);
  }

  lemma WrapMod(x: int)
    ensures WrapInt(x) % WORD == x % WORD
  {
    var y := x - INT_MIN;
    var q, r := y / WORD, y % WORD;
    assert y == q * WORD + r;
    var w := WrapInt(x);
    assert w == r + INT_MIN;
    if r >= -INT_MIN {
      ModUnique(w, WORD, 0, w);
      ModUnique(x, WORD, q, w);
    } else {
      ModUnique(w, WORD, -1, w + WORD);
      assert x == (q - 1) * WORD + (w + WORD);
      ModUnique(x, WORD, q - 1, w + WORD);
    }
  }

  lemma {:induction false} BinaryLong(n: nat, w: nat)
    requires n >= Pow2(w)
    ensures |Binary(n)| > w
    decreases w
  {
    if w > 0 { BinaryLong(n / 2, w - 1); }
  }

  // -------------------------------------------------------------- words

  /// An A-instruction word is '0' followed by the 15 bits of the address,
  /// and it denotes the address.
  lemma AWordBits(addr: nat)
    requires addr <= MAX_ADDRESS as int
    ensures AWord(addr) == "0" + Bits(addr, 15)
    ensures |AWord(addr)| == 16 && BinValue(AWord(addr)) == addr
  {
    Pow2Values();
    PadBinIsBits(addr, 15);
    var b := Bits(addr, 15);
    assert AWord(addr) == "0" + b;
    BinValueBits(addr, 15);
    ModUnique(addr, Pow2(15), 0, addr);
    BinValueZero(b);
  }

  /// A C-instruction word is "111" and the 7 comp bits, 3 dest bits and 3
  /// jump bits, when the codes fit those widths.
  lemma CWordBits(comp: nat, dest: nat, jump: nat)
    requires comp < 128 && dest < 8 && jump < 8
    ensures CWord(comp, dest, jump) == "111" + Bits(comp, 7) + Bits(dest, 3) + Bits(jump, 3)
    ensures |CWord(comp, dest, jump)| == 16
  {
    Pow2Values();
    PadBinIsBits(comp, 7);
    PadBinIsBits(dest, 3);
    PadBinIsBits(jump, 3);
  }

  /// A comp text bound to 128 or more (an address symbol such as SCREEN, a
  /// label or a variable) is accepted, and `%07b` prints it in full, so the
  /// word is longer than 16 characters.
  lemma LongCompWord(t: Table, next: u32, comp: string)
    requires WellSized(t) && Lookup(t, comp) >= 128
    ensures var r := Translate(t, next, CIns("", comp, ""));
      r.Ok? && |r.value.words| == 1 && |r.value.words[0]| > 16
  {
    Pow2Values();
    BinaryLong(Lookup(t, comp), 7);
  }

  // ------------------------------------------------------- A-instructions

  /// "@n" with `n` in decimal: `atoi` saturates the value to a 64-bit `long`
  /// and wraps it to 32 bits, and the result must be at most 32767. So
  /// "@4294967301" assembles as "@5".
  lemma DecimalAddress(t: Table, next: u32, v: nat)
    requires WellSized(t)
    ensures var a := (if v > LONG_MAX then LONG_MAX else v) % WORD;
      Translate(t, next, AIns(NatStr(v)))
      == if a <= MAX_ADDRESS as int then Ok(Step(t, next, [AWord(a)])) else Err("Address out of bounds")
  {
    var s := NatStr(v);
    assert IsDigit(s[0]);
    StrtolDigits(s);
    assert Atoi(s) == WrapInt(Strtol(s));
    WrapMod(Strtol(s));
  }

  /// A symbol that looks up as 0 (an absent one, the empty one of a bare
  /// "@", or a label bound to address 0) becomes a variable at `next`; the
  /// next use of it then reads that address back without allocating again.
  lemma VariableAllocation(t: Table, next: u32, s: string)
    requires WellSized(t) && |t.entries| < SIZE_LIMIT / 4
    requires (s == [] || !IsDigit(s[0])) && s != "SP" && s != "R0" && Lookup(t, s) == 0
    requires START_SYMBOL_ADDRESS <= next < SCREEN_ADDRESS
    ensures var r := Translate(t, next, AIns(s));
      && r.Ok? && r.value.next == next + 1 && r.value.words == [AWord(next)]
      && (forall k :: k != s ==> Lookup(r.value.table, k) == Lookup(t, k))
      && Translate(r.value.table, next + 1, AIns(s)) == Ok(Step(r.value.table, next + 1, [AWord(next)]))
  {
    StoreSucceeds(t, s, next);
  }

  /// What the second pass writes for one line: nothing for a line without
  /// code, one word otherwise; and the only messages it fails with.
  lemma TranslateWords(t: Table, next: u32, code: Code)
    requires WellSized(t)
    ensures var r := Translate(t, next, code);
      && (r.Ok? ==> |r.value.words| == if code.NoCode? then 0 else 1)
      && (r.Err? ==> !code.NoCode?)
      && (r.Err? ==> r.msg in {"Address out of bounds", "Instruction address limit reached", "Invalid instruction"})
  {
    match code
    case NoCode =>
    case AIns(_) =>
    case CIns(dest, comp, jump) =>
      match CCode(t, dest, comp, jump)
      case Err(_) =>
      case Ok(_) =>
  }

  // ---------------------------------------------------------------- pass 1

  /// The number of lines of `kinds[i..j]` that pass 1 counts as instructions.
  function Instructions(kinds: seq<LineKind>, i: nat, j: nat): nat
    requires i <= j <= |kinds|
    decreases j - i
  {
    if i == j then 0 else (if kinds[i] == Instruction then 1 else 0) + Instructions(kinds, i + 1, j)
  }

  lemma {:induction false} InstructionsAtMost(kinds: seq<LineKind>, i: nat, j: nat)
    requires i <= j <= |kinds|
    ensures Instructions(kinds, i, j) <= j - i
    decreases j - i
  {
    if i < j { InstructionsAtMost(kinds, i + 1, j); }
  }

  /// The instruction counter after pass 1 has read a line of kind `kind`.
  function After(count: u32, kind: LineKind): u32
  {
    if kind == Instruction then Inc(count) else count
  }

  /// Pass 1 keeps the value of every symbol that no line of `kinds[i..]`
  /// defines as a label.
  lemma {:induction false} FirstPassKeeps(t: Table, count: u32, kinds: seq<LineKind>, i: nat, s: string)
    requires WellSized(t) && i <= |kinds|
    requires forall j | i <= j < |kinds| :: kinds[j] != Label(s)
    requires FirstPass(t, count, kinds, i).Done?
    ensures Lookup(FirstPass(t, count, kinds, i).value, s) == Lookup(t, s)
    decreases |kinds| - i
  {
    if i < |kinds| {
      var step := FirstLine(t, count, kinds[i], i + 1);
      assert step.Done?;
      FirstPassKeeps(step.value.0, step.value.1, kinds, i + 1, s);
    }
  }

  /// "(SYM)" on line `k + 1`, the last definition of SYM, binds SYM to the
  /// instruction counter at that line: the number of instructions before it
  /// (counting from `count`, in `unsigned` arithmetic).
  lemma {:induction false} LabelBinding(t: Table, count: u32, kinds: seq<LineKind>, i: nat, k: nat, s: string)
    requires WellSized(t) && i <= k < |kinds| && |t.entries| + (|kinds| - i) < SIZE_LIMIT / 4
    requires kinds[k] == Label(s)
    requires forall j | k < j < |kinds| :: kinds[j] != Label(s)
    requires FirstPass(t, count, kinds, i).Done?
    ensures Lookup(FirstPass(t, count, kinds, i).value, s) == (count + Instructions(kinds, i, k)) % WORD
    decreases k - i
  {
    var step := FirstLine(t, count, kinds[i], i + 1);
    assert step.Done?;
    var t', count' := step.value.0, step.value.1;
    if i < k {
      var d := if kinds[i] == Instruction then 1 else 0;
      assert count' == After(count, kinds[i]);
      assert |t'.entries| <= |t.entries| + 1;
      LabelBinding(t', count', kinds, i + 1, k, s);
      ModAddLeft(count + d, Instructions(kinds, i + 1, k));
    } else {
      StoreSucceeds(t, s, count);
      FirstPassKeeps(t', count, kinds, k + 1, s);
    }
  }

  /// Line `j + 1` stops pass 1 when it is reached with the counter at
  /// `count` plus the instructions of `kinds[i..j]`: it is not a valid line,
  /// or it is a label past the address limit.
  predicate Stops(kinds: seq<LineKind>, count: u32, i: nat, j: nat)
    requires i <= j < |kinds|
  {
    || kinds[j].Bad?
    || (kinds[j].Label? && (count + Instructions(kinds, i, j)) % WORD > MAX_ADDRESS as int)
  }

  /// Some line of `kinds[i..]` stops pass 1.
  predicate StopsSomewhere(kinds: seq<LineKind>, count: u32, i: nat)
  {
    exists j :: i <= j < |kinds| && Stops(kinds, count, i, j)
  }

  lemma StopsShift(kinds: seq<LineKind>, count: u32, i: nat, j: nat)
    requires i < j < |kinds|
    ensures Stops(kinds, count, i, j) == Stops(kinds, After(count, kinds[i]), i + 1, j)
  {
    ModAddLeft(count + (if kinds[i] == Instruction then 1 else 0), Instructions(kinds, i + 1, j));
  }

  /// Past a line that does not stop it, pass 1 stops on a later line
  /// exactly when it would starting there with the updated counter.
  lemma StopsLater(kinds: seq<LineKind>, count: u32, i: nat)
    requires i < |kinds| && !Stops(kinds, count, i, i)
    ensures var count' := After(count, kinds[i]);
      && (forall j | i < j < |kinds| :: Stops(kinds, count, i, j) == Stops(kinds, count', i + 1, j))
      && (StopsSomewhere(kinds, count, i) <==> StopsSomewhere(kinds, count', i + 1))
  {
    var count' := After(count, kinds[i]);
    forall j | i < j < |kinds|
      ensures Stops(kinds, count, i, j) == Stops(kinds, count', i + 1, j)
    {
      StopsShift(kinds, count, i, j);
    }
    if StopsSomewhere(kinds, count, i) {
      var j :| i <= j < |kinds| && Stops(kinds, count, i, j);
      assert Stops(kinds, count', i + 1, j);
    }
    if StopsSomewhere(kinds, count', i + 1) {
      var i' := i + 1;
      var j :| i' <= j < |kinds| && Stops(kinds, count', i', j);
      assert Stops(kinds, count, i, j);
    }
  }

  /// Pass 1 fails exactly when some line stops it, and then it reports the
  /// first such line, with the message of an invalid line or the address
  /// limit message of a label.
  lemma {:induction false} FirstPassStops(t: Table, count: u32, kinds: seq<LineKind>, i: nat)
    requires WellSized(t) && i <= |kinds|
    ensures FirstPass(t, count, kinds, i).Stopped? <==> StopsSomewhere(kinds, count, i)
    ensures FirstPass(t, count, kinds, i).Stopped? ==>
      var f := FirstPass(t, count, kinds, i).failure;
      && i < f.line <= |kinds|
      && Stops(kinds, count, i, f.line - 1)
      && (forall j | i <= j < f.line - 1 :: !Stops(kinds, count, i, j))
      && f.msg == match kinds[f.line - 1]
                  case Bad(msg) => msg
                  case _ => "Instruction address limit reached"
    decreases |kinds| - i
  {
    if i < |kinds| {
      assert Instructions(kinds, i, i) == 0;
      var step := FirstLine(t, count, kinds[i], i + 1);
      if step.Stopped? {
        assert Stops(kinds, count, i, i);
      } else {
        assert !Stops(kinds, count, i, i);
        var t', count' := step.value.0, step.value.1;
        assert count' == After(count, kinds[i]);
        FirstPassStops(t', count', kinds, i + 1);
        StopsLater(kinds, count, i);
      }
    }
  }

  // ---------------------------------------------------------------- pass 2

  /// The number of lines of `lines[i..j]` that hold an instruction for pass 2.
  function Codes(lines: seq<string>, i: nat, j: nat): nat
    requires i <= j <= |lines|
    decreases j - i
  {
    if i == j then 0 else (if Decode(lines[i]) != NoCode then 1 else 0) + Codes(lines, i + 1, j)
  }

  /// The second pass keeps what it has written, adds one word per line
  /// holding an instruction and, when it stops, names a line it has reached
  /// with one of its three messages.
  lemma {:induction false} SecondPassOutput(t: Table, next: u32, lines: seq<string>, i: nat, out: seq<string>)
    requires WellSized(t) && i <= |lines|
    ensures var r := SecondPass(t, next, lines, i, out);
      && out <= r.0 && |r.0| <= |out| + Codes(lines, i, |lines|)
      && (r.1.None? ==> |r.0| == |out| + Codes(lines, i, |lines|))
      && (r.1.Some? ==> i < r.1.value.line <= |lines|)
      && (r.1.Some? ==> r.1.value.msg in {"Address out of bounds", "Instruction address limit reached", "Invalid instruction"})
    decreases |lines| - i
  {
    if i < |lines| {
      var code := Decode(lines[i]);
      TranslateWords(t, next, code);
      match Translate(t, next, code)
      case Err(_) =>
      case Ok(s) =>
        SecondPassOutput(s.table, s.next, lines, i + 1, out + s.words);
    }
  }

  /// On a line pass 1 accepts, pass 1 counts an instruction exactly where
  /// pass 2 finds one.
  lemma ClassifyDecode(line: string)
    requires !Classify(line).Bad?
    ensures Classify(line) == Instruction <==> Decode(line) != NoCode
  {
    var t := CString(line);
    var k := BlankEnd(t, 0);
    assert Classify(line) == ClassifyText(t) && Decode(line) == DecodeText(t);
  }

  lemma {:induction false} CodesAreInstructions(lines: seq<string>, i: nat, j: nat)
    requires i <= j <= |lines|
    requires forall p | i <= p < j :: !Kinds(lines)[p].Bad?
    ensures Codes(lines, i, j) == Instructions(Kinds(lines), i, j)
    decreases j - i
  {
    if i < j {
      KindsAt(lines, i);
      ClassifyDecode(lines[i]);
      CodesAreInstructions(lines, i + 1, j);
    }
  }

  lemma {:induction false} StoreFromSize(t: Table, kvs: seq<(string, u32)>, i: nat)
    requires WellSized(t) && i <= |kvs|
    ensures |StoreFrom(t, kvs, i).entries| <= |t.entries| + (|kvs| - i)
    decreases |kvs| - i
  {
    if i < |kvs| {
      StoreFromSize(Store(t, kvs[i].0, kvs[i].1).0, kvs, i + 1);
    }
  }

  /// When pass 1 succeeds, no line is invalid and the last "(SYM)" binds
  /// SYM to the number of instruction lines before it.
  lemma LabelCount(t: Table, kinds: seq<LineKind>, k: nat, s: string)
    requires WellSized(t) && |t.entries| < SIZE_LIMIT / 8 && k < |kinds| < WORD
    requires FirstPass(t, 0, kinds, 0).Done?
    requires kinds[k] == Label(s)
    requires forall j | k < j < |kinds| :: kinds[j] != Label(s)
    ensures forall p | 0 <= p < |kinds| :: !kinds[p].Bad?
    ensures Instructions(kinds, 0, k) <= MAX_ADDRESS as int
    ensures Lookup(FirstPass(t, 0, kinds, 0).value, s) == Instructions(kinds, 0, k)
  {
    FirstPassStops(t, 0, kinds, 0);
    assert !Stops(kinds, 0, 0, k);
    forall p | 0 <= p < |kinds| ensures !kinds[p].Bad? {
      assert !Stops(kinds, 0, 0, p);
    }
    InstructionsAtMost(kinds, 0, k);
    LabelBinding(t, 0, kinds, 0, k, s);
  }

  /// In a program whose pass 1 succeeds from table `t`, the last "(SYM)"
  /// binds SYM to the number of instruction words pass 2 writes for the
  /// lines before it: the ROM address of the instruction that follows the
  /// label.
  lemma LabelIsAddress(t: Table, lines: seq<string>, k: nat, s: string)
    requires WellSized(t) && |t.entries| < SIZE_LIMIT / 8 && k < |lines| < WORD
    requires FirstPass(t, 0, Kinds(lines), 0).Done?
    requires Kinds(lines)[k] == Label(s)
    requires forall j | k < j < |lines| :: Kinds(lines)[j] != Label(s)
    ensures Codes(lines, 0, k) <= MAX_ADDRESS as int
    ensures Lookup(FirstPass(t, 0, Kinds(lines), 0).value, s) == Codes(lines, 0, k)
  {
    LabelCount(t, Kinds(lines), k, s);
    CodesAreInstructions(lines, 0, k);
  }

  /// The predefined table holds at most its 65 `ht_set` calls' keys, so
  /// `LabelIsAddress` applies to it for every program of fewer than 2^32 lines.
  lemma InitialTableSize()
    ensures |InitialTable().entries| <= 65
  {
    StoreFromSize(NewTable(), PREDEFINED, 0);
    assert |PREDEFINED| == 65;
  }
}

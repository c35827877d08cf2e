/// The two-pass Hack assembler of 7/assembler.c, repeated unchanged (apart from
/// the `st_` names of its table) in src/assembler.c. The input file is the
/// sequence of lines `fgets` returns; the output is the sequence of 16-character
/// words written to the .hack file, one per line, without the newline.
///
/// Pass 1 binds every label to the number of instructions before it. Pass 2
/// reads each line into an A- or C-instruction, resolves A-instruction symbols
/// (allocating variables from address 16 on) and encodes both kinds through
/// the one symbol table that also holds the comp, dest and jump codes.
module Assembler {
  import opened CLib
  import opened Ds
  import opened AsmLines

  const START_SYMBOL_ADDRESS: u32 := 16
  const SCREEN_ADDRESS: u32 := 16384
  const KEYBOARD_ADDRESS: u32 := 24576
  const MAX_ADDRESS: u32 := 32767

  /// The `ht_set` calls `main` makes before the first pass, in their order:
  /// the predefined symbols, the comp codes, the dest codes (a single
  /// register under "@M", "@D" and "@A", apart from the comp codes "M", "D"
  /// and "A") and the jump codes. "D&A" is bound to 0, the value a lookup of
  /// an absent key also gives.
  const PREDEFINED: seq<(string, u32)> := [
    ("SP", 0), ("LCL", 1), ("ARG", 2), ("THIS", 3), ("THAT", 4),
    ("R0", 0), ("R1", 1), ("R2", 2), ("R3", 3), ("R4", 4), ("R5", 5), ("R6", 6), ("R7", 7),
    ("R8", 8), ("R9", 9), ("R10", 10), ("R11", 11), ("R12", 12), ("R13", 13), ("R14", 14),
    ("R15", 15), ("SCREEN", SCREEN_ADDRESS), ("KBD", KEYBOARD_ADDRESS),
    ("0", 42), ("1", 63), ("-1", 58), ("D", 12), ("A", 48), ("!D", 13), ("!A", 49), ("-D", 15),
    ("-A", 51), ("D+1", 31), ("A+1", 55), ("D-1", 14), ("A-1", 50), ("D+A", 2), ("D-A", 19),
    ("A-D", 7), ("D&A", 0), ("D|A", 21), ("M", 112), ("!M", 113), ("-M", 115), ("M+1", 119),
    ("M-1", 114), ("D+M", 66), ("D-M", 83), ("M-D", 71), ("D&M", 64), ("D|M", 85),
    ("@M", 1), ("@D", 2), ("MD", 3), ("@A", 4), ("AM", 5), ("AD", 6), ("AMD", 7),
    ("JGT", 1), ("JEQ", 2), ("JGE", 3), ("JLT", 4), ("JNE", 5), ("JLE", 6), ("JMP", 7)
  ]

  /// The table after storing `kvs[i..]` into `t`, in order, ignoring
  /// whether each `ht_set` succeeded.
  function StoreFrom(t: Table, kvs: seq<(string, u32)>, i: nat): (r: Table)
    requires WellSized(t) && i <= |kvs|
    ensures WellSized(r)
    decreases |kvs| - i
  {
    if i == |kvs| then t else StoreFrom(Store(t, kvs[i].0, kvs[i].1).0, kvs, i + 1)
  }

  /// The symbol table the first pass starts from.
  function InitialTable(): (t: Table)
    ensures WellSized(t)
  {
    StoreFrom(NewTable(), PREDEFINED, 0)
  }

  /// The line number (from 1) and message of an `EXIT_ERROR`.
  datatype Failure = Failure(line: nat, msg: string)

  datatype Outcome<T> = Done(value: T) | Stopped(failure: Failure)

  /// `instrNumber++` on an `unsigned`.
  function Inc(n: u32): u32 { (n + 1) % 0x1_0000_0000 }

  // ---------------------------------------------------------------- pass 1

  /// What the first pass does with a line of kind `kind` numbered `n`,
  /// given the table `t` and the instruction counter `count`: a label is
  /// stored with the counter, an instruction advances it, and a line that is
  /// not valid stops the pass.
  function FirstLine(t: Table, count: u32, kind: LineKind, n: nat): (r: Outcome<(Table, u32)>)
    requires WellSized(t)
    ensures r.Done? ==> WellSized(r.value.0)
  {
    match kind
    case Bad(msg) => Stopped(Failure(n, msg))
    case Label(symbol) =>
      if count > MAX_ADDRESS then Stopped(Failure(n, "Instruction address limit reached"))
      else Done((Store(t, symbol, count).0, count))
    case Instruction => Done((t, Inc(count)))
    case Blank => Done((t, count))
  }

  /// The kinds of the lines, as pass 1 classifies them.
  function Kinds(lines: seq<string>): (kinds: seq<LineKind>)
    ensures |kinds| == |lines|
  {
    if lines == [] then [] else [Classify(lines[0])] + Kinds(lines[1..])
  }

  lemma {:induction false} KindsAt(lines: seq<string>, i: nat)
    requires i < |lines|
    ensures Kinds(lines)[i] == Classify(lines[i])
  {
    if i > 0 {
      KindsAt(lines[1..], i - 1);
    }
  }

  /// The first pass over `kinds[i..]`, the kinds of the lines from line
  /// number `i + 1` on.
  function FirstPass(t: Table, count: u32, kinds: seq<LineKind>, i: nat): (r: Outcome<Table>)
    requires WellSized(t) && i <= |kinds|
    ensures r.Done? ==> WellSized(r.value)
    decreases |kinds| - i
  {
    if i == |kinds| then Done(t)
    else
      match FirstLine(t, count, kinds[i], i + 1)
      case Stopped(f) => Stopped(f)
      case Done((t', count')) => FirstPass(t', count', kinds, i + 1)
  }

  // ---------------------------------------------------------------- pass 2

  /// `"%s%015b"` with opcode "0".
  function AWord(addr: nat): string { "0" + PadBin(addr, 15) }

  /// `"%s%07b%03b%03b"` with opcode "111".
  function CWord(comp: nat, dest: nat, jump: nat): string
  {
    "111" + PadBin(comp, 7) + PadBin(dest, 3) + PadBin(jump, 3)
  }

  /// The effect of one line of the second pass: the table, the next variable
  /// address and the words written (none or one).
  datatype Step = Step(table: Table, next: u32, words: seq<string>)

  /// The word for a C-instruction with the given dest, comp and jump texts,
  /// or the error when one of them has code 0 in `t`. The dest and jump codes
  /// are looked up only when their text is not empty.
  function CCode(t: Table, dest: string, comp: string, jump: string): Result<string>
  {
    var c := Lookup(t, comp);
    var d := if dest == [] then 0 else Lookup(t, dest);
    var j := if jump == [] then 0 else Lookup(t, jump);
    if c == 0 || (dest != [] && d == 0) || (jump != [] && j == 0) then Err("Invalid instruction")
    else Ok(CWord(c, d, j))
  }

  /// How the second pass handles one decoded line, given the table `t` and
  /// the next free variable address `next`.
  function Translate(t: Table, next: u32, code: Code): (r: Result<Step>)
    requires WellSized(t)
    ensures r.Ok? ==> WellSized(r.value.table)
  {
    match code
    case NoCode => Ok(Step(t, next, []))
    case AIns(symbol) =>
      if symbol != [] && IsDigit(symbol[0]) then
        var addr := ToUnsigned(Atoi(symbol));
        if addr > MAX_ADDRESS then Err("Address out of bounds")
        else Ok(Step(t, next, [AWord(addr)]))
      else if symbol == "SP" || symbol == "R0" then Ok(Step(t, next, [AWord(0)]))
      else if Lookup(t, symbol) != 0 then Ok(Step(t, next, [AWord(Lookup(t, symbol))]))
      else if next >= SCREEN_ADDRESS then Err("Instruction address limit reached")
      else Ok(Step(Store(t, symbol, next).0, next + 1, [AWord(next)]))
    case CIns(dest, comp, jump) =>
      match CCode(t, dest, comp, jump)
      case Err(msg) => Err(msg)
      case Ok(word) => Ok(Step(t, next, [word]))
  }

  /// The second pass over `lines[i..]` after it has written `out`: all the
  /// words written, and the failure that stopped it, if any. The words of
  /// the lines before a failing one stay in the output.
  function SecondPass(t: Table, next: u32, lines: seq<string>, i: nat, out: seq<string>): (r: (seq<string>, Option<Failure>))
    requires WellSized(t) && i <= |lines|
    decreases |lines| - i
  {
    if i == |lines| then (out, None)
    else
      match Translate(t, next, Decode(lines[i]))
      case Err(msg) => (out, Some(Failure(i + 1, msg)))
      case Ok(s) => SecondPass(s.table, s.next, lines, i + 1, out + s.words)
  }

  /// The whole assembler: nothing is written when the first pass fails.
  function Assemble(lines: seq<string>): (seq<string>, Option<Failure>)
  {
    match FirstPass(InitialTable(), 0, Kinds(lines), 0)
    case Stopped(f) => ([], Some(f))
    case Done(t) => SecondPass(t, START_SYMBOL_ADDRESS, lines, 0, [])
  }

  // ------------------------------------------------------------ the program

  /// A run of `ht_set` calls whose results are ignored, as in the
  /// initialisation block of `main`.
  method StoreEach(symbols: HashTable, kvs: seq<(string, u32)>)
    requires symbols.Valid()
    modifies symbols, symbols.entries
    ensures symbols.Valid() && (symbols.entries == old(symbols.entries) || fresh(symbols.entries))
    ensures symbols.Model() == StoreFrom(old(symbols.Model()), kvs, 0)
  {
    ghost var expected := StoreFrom(symbols.Model(), kvs, 0);
    var i := 0;
    while i < |kvs|
      invariant i <= |kvs| && symbols.Valid()
      invariant symbols.entries == old(symbols.entries) || fresh(symbols.entries)
      invariant StoreFrom(symbols.Model(), kvs, i) == expected
    {
      var _ := symbols.Set(kvs[i].0, kvs[i].1);
      i := i + 1;
    }
  }

  /// One iteration of the first-pass loop, on `lines[i]`: the new instruction
  /// count, or the failure that stops the pass.
  method FirstPassIteration(symbols: HashTable, lines: seq<string>, ghost kinds: seq<LineKind>, i: nat, instrNumber: u32)
      returns (count: u32, failure: Option<Failure>)
    requires symbols.Valid() && i < |lines| && kinds == Kinds(lines)
    modifies symbols, symbols.entries
    ensures symbols.Valid() && (symbols.entries == old(symbols.entries) || fresh(symbols.entries))
    ensures failure.Some? ==> FirstPass(old(symbols.Model()), instrNumber, kinds, i) == Stopped(failure.value)
    ensures failure.None? ==>
      FirstPass(old(symbols.Model()), instrNumber, kinds, i) == FirstPass(symbols.Model(), count, kinds, i + 1)
  {
    KindsAt(lines, i);
    ghost var step := FirstLine(symbols.Model(), instrNumber, kinds[i], i + 1);
    count, failure := instrNumber, None;
    var kind := ClassifyLine(lines[i]);
    match kind {
      case Bad(msg) =>
        return instrNumber, Some(Failure(i + 1, msg));
      case Label(symbol) =>
        if instrNumber > MAX_ADDRESS {
          return instrNumber, Some(Failure(i + 1, "Instruction address limit reached"));
        }
        var _ := symbols.Set(symbol, instrNumber);
      case Instruction =>
        count := (instrNumber + 1) % 0x1_0000_0000;
      case Blank =>
    }
    assert step == Done((symbols.Model(), count));
  }

  /// The first pass of `main`.
  method FirstPassLines(symbols: HashTable, lines: seq<string>) returns (failure: Option<Failure>)
    requires symbols.Valid()
    modifies symbols, symbols.entries
    ensures symbols.Valid() && (symbols.entries == old(symbols.entries) || fresh(symbols.entries))
    ensures failure.None? ==> FirstPass(old(symbols.Model()), 0, Kinds(lines), 0) == Done(symbols.Model())
    ensures failure.Some? ==> FirstPass(old(symbols.Model()), 0, Kinds(lines), 0) == Stopped(failure.value)
  {
    ghost var kinds := Kinds(lines);
    ghost var expected := FirstPass(symbols.Model(), 0, kinds, 0);
    var instrNumber: u32 := 0;
    var i := 0;
    failure := None;
    while i < |lines| && failure.None?
      invariant i <= |lines| && symbols.Valid()
      invariant symbols.entries == old(symbols.entries) || fresh(symbols.entries)
      invariant failure.None? ==> FirstPass(symbols.Model(), instrNumber, kinds, i) == expected
      invariant failure.Some? ==> expected == Stopped(failure.value)
    {
      instrNumber, failure := FirstPassIteration(symbols, lines, kinds, i, instrNumber);
      i := i + 1;
    }
  }

  /// The A-instruction branch of the second pass: a decimal address, SP or
  /// R0, a stored symbol, or a newly allocated variable.
  method ResolveAddress(symbols: HashTable, aInstr: string, nextAddress: u32) returns (r: Result<(u32, seq<string>)>)
    requires symbols.Valid()
    modifies symbols, symbols.entries
    ensures symbols.Valid() && (symbols.entries == old(symbols.entries) || fresh(symbols.entries))
    ensures r.Err? ==> Translate(old(symbols.Model()), nextAddress, AIns(aInstr)) == Err(r.msg)
    ensures r.Ok? ==>
      Translate(old(symbols.Model()), nextAddress, AIns(aInstr)) == Ok(Step(symbols.Model(), r.value.0, r.value.1))
  {
    ghost var t := symbols.Model();
    if aInstr != [] && IsDigit(aInstr[0]) {
      var addr := ToUnsigned(Atoi(aInstr));
      if addr > MAX_ADDRESS {
        return Err("Address out of bounds");
      }
      return Ok((nextAddress, [AWord(addr)]));
    }
    if aInstr == "SP" || aInstr == "R0" {
      return Ok((nextAddress, [AWord(0)]));
    }
    var addr := symbols.Get(aInstr);
    if addr != 0 {
      assert Translate(t, nextAddress, AIns(aInstr)) == Ok(Step(t, nextAddress, [AWord(addr)]));
      return Ok((nextAddress, [AWord(addr)]));
    }
    r := Allocate(symbols, aInstr, nextAddress);
  }

  /// A symbol that is not in the table becomes a variable at the next free
  /// address, unless that reaches the screen memory map.
  method Allocate(symbols: HashTable, aInstr: string, nextAddress: u32) returns (r: Result<(u32, seq<string>)>)
    requires symbols.Valid()
    modifies symbols, symbols.entries
    ensures symbols.Valid() && (symbols.entries == old(symbols.entries) || fresh(symbols.entries))
    ensures r.Err? ==> nextAddress >= SCREEN_ADDRESS && r.msg == "Instruction address limit reached"
    ensures r.Ok? ==> nextAddress < SCREEN_ADDRESS && r.value == (nextAddress + 1, [AWord(nextAddress)])
    ensures r.Ok? ==> symbols.Model() == Store(old(symbols.Model()), aInstr, nextAddress).0
  {
    if nextAddress >= SCREEN_ADDRESS {
      return Err("Instruction address limit reached");
    }
    var _ := symbols.Set(aInstr, nextAddress);
    var next: u32 := nextAddress + 1;
    r := Ok((next, [AWord(nextAddress)]));
  }

  /// The C-instruction branch of the second pass.
  method EncodeC(symbols: HashTable, dest: string, comp: string, jmp: string) returns (r: Result<string>)
    requires symbols.Valid()
    ensures r == CCode(symbols.Model(), dest, comp, jmp)
  {
    var compD := symbols.Get(comp);
    if compD == 0 {
      return Err("Invalid instruction");
    }
    var destD: u32 := 0;
    if dest != [] {
      destD := symbols.Get(dest);
      if destD == 0 {
        return Err("Invalid instruction");
      }
    }
    var jmpD: u32 := 0;
    if jmp != [] {
      jmpD := symbols.Get(jmp);
      if jmpD == 0 {
        return Err("Invalid instruction");
      }
    }
    return Ok(CWord(compD, destD, jmpD));
  }

  /// The body of the second-pass loop for one line: decode it and translate
  /// the instruction it holds.
  method TranslateLine(symbols: HashTable, line: string, nextAddress: u32) returns (r: Result<(u32, seq<string>)>)
    requires symbols.Valid()
    modifies symbols, symbols.entries
    ensures symbols.Valid() && (symbols.entries == old(symbols.entries) || fresh(symbols.entries))
    ensures r.Err? ==> Translate(old(symbols.Model()), nextAddress, Decode(line)) == Err(r.msg)
    ensures r.Ok? ==>
      Translate(old(symbols.Model()), nextAddress, Decode(line)) == Ok(Step(symbols.Model(), r.value.0, r.value.1))
  {
    var code := DecodeLine(line);
    match code {
      case NoCode =>
        r := Ok((nextAddress, []));
      case AIns(aInstr) =>
        r := ResolveAddress(symbols, aInstr, nextAddress);
      case CIns(dest, comp, jmp) =>
        var word := EncodeC(symbols, dest, comp, jmp);
        r := if word.Ok? then Ok((nextAddress, [word.value])) else Err(word.msg);
    }
  }

  /// One iteration of the second-pass loop, on `lines[i]`: the words it
  /// writes and the next free address, or the failure that stops the pass.
  method SecondPassIteration(symbols: HashTable, lines: seq<string>, i: nat, nextAddress: u32, ghost out: seq<string>)
      returns (words: seq<string>, next: u32, failure: Option<Failure>)
    requires symbols.Valid() && i < |lines|
    modifies symbols, symbols.entries
    ensures symbols.Valid() && (symbols.entries == old(symbols.entries) || fresh(symbols.entries))
    ensures failure.Some? ==> SecondPass(old(symbols.Model()), nextAddress, lines, i, out) == (out, failure)
    ensures failure.None? ==>
      SecondPass(old(symbols.Model()), nextAddress, lines, i, out)
      == SecondPass(symbols.Model(), next, lines, i + 1, out + words)
  {
    var r := TranslateLine(symbols, lines[i], nextAddress);
    if r.Err? {
      return [], nextAddress, Some(Failure(i + 1, r.msg));
    }
    words, next, failure := r.value.1, r.value.0, None;
  }

  /// The second pass of `main`; `out` is what it has written when it stops.
  method SecondPassLines(symbols: HashTable, lines: seq<string>) returns (out: seq<string>, failure: Option<Failure>)
    requires symbols.Valid()
    modifies symbols, symbols.entries
    ensures (out, failure) == SecondPass(old(symbols.Model()), START_SYMBOL_ADDRESS, lines, 0, [])
  {
    ghost var expected := SecondPass(symbols.Model(), START_SYMBOL_ADDRESS, lines, 0, []);
    out := [];
    var nextAddress := START_SYMBOL_ADDRESS;
    var i := 0;
    while i < |lines|
      invariant i <= |lines| && symbols.Valid()
      invariant symbols.entries == old(symbols.entries) || fresh(symbols.entries)
      invariant SecondPass(symbols.Model(), nextAddress, lines, i, out) == expected
    {
      var words, next, stop := SecondPassIteration(symbols, lines, i, nextAddress, out);
      if stop.Some? {
        return out, stop;
      }
      out, nextAddress, i := out + words, next, i + 1;
    }
    failure := None;
  }

  /// `main` between opening the files and closing them.
  method AssembleLines(lines: seq<string>) returns (out: seq<string>, failure: Option<Failure>)
    ensures (out, failure) == Assemble(lines)
  {
    var symbols := new HashTable();
    StoreEach(symbols, PREDEFINED);
    failure := FirstPassLines(symbols, lines);
    if failure.Some? {
      return [], failure;
    }
    out, failure := SecondPassLines(symbols, lines);
  }
}

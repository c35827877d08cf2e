/// The two-pass Hack assembler of 6/hackasm.c. Its table holds the same
/// predefined symbols and codes as the one of 7/assembler.c, but variables
/// are allocated in the first pass, from address 1024 on, and nothing in
/// either pass is ever rejected: a missing symbol or code reads as 0 and a
/// decimal address is printed modulo 2^15.
module HackAsm {
  import opened CLib
  import opened AsmLines
  import opened HackLines
  import opened HackTable
  import Assembler

  const START_SYMBOL_ADDRESS: nat := 1024

  /// The table after `addEntry` of `kvs[i..]` into `m`, in order.
  function AddFrom(m: map<string, u32>, kvs: seq<(string, u32)>, i: nat): map<string, u32>
    requires i <= |kvs|
    decreases |kvs| - i
  {
    if i == |kvs| then m else AddFrom(m[kvs[i].0 := kvs[i].1], kvs, i + 1)
  }

  /// The table the first pass starts from: the same `addEntry` calls, in the
  /// same order, as the initialisation of 7/assembler.c.
  function InitialTable(): map<string, u32>
  {
    AddFrom(map[], Assembler.PREDEFINED, 0)
  }

  // ---------------------------------------------------------------- pass 1

  /// The state of the first pass: the table, the count of instruction lines
  /// so far (`lineNumber`) and the next variable address (`nextAddress`).
  datatype Pass1 = Pass1(table: map<string, u32>, lineNumber: nat, next: nat)

  /// What the first pass does with one scanned line: a label is bound to the
  /// instruction count; a variable other than SP and R0 that currently reads
  /// as 0 is bound to the next address, which then advances; an instruction
  /// line advances the count.
  function FirstLine(st: Pass1, s: Scan): (r: Pass1)
    ensures r.lineNumber == st.lineNumber + (if s.isInstr then 1 else 0)
    ensures r.next == st.next || r.next == st.next + 1
  {
    var st' :=
      if s.symbol == [] then st
      else if s.isLabel then st.(table := st.table[s.symbol := ToUnsigned(st.lineNumber)])
      else if s.symbol != "SP" && s.symbol != "R0" && Lookup(st.table, s.symbol) == 0 then
        st.(table := st.table[s.symbol := ToUnsigned(st.next)], next := st.next + 1)
      else st;
    if s.isInstr then st'.(lineNumber := st'.lineNumber + 1) else st'
  }

  /// The scans of the lines.
  function Scans(lines: seq<string>): (scans: seq<Scan>)
    ensures |scans| == |lines|
  {
    if lines == [] then [] else [ScanOf(lines[0])] + Scans(lines[1..])
  }

  lemma {:induction false} ScansAt(lines: seq<string>, i: nat)
    requires i < |lines|
    ensures Scans(lines)[i] == ScanOf(lines[i])
  {
    if i > 0 {
      ScansAt(lines[1..], i - 1);
    }
  }

  /// The first pass over `scans[i..]`.
  function FirstPass(st: Pass1, scans: seq<Scan>, i: nat): Pass1
    requires i <= |scans|
    decreases |scans| - i
  {
    if i == |scans| then st else FirstPass(FirstLine(st, scans[i]), scans, i + 1)
  }

  // ---------------------------------------------------------------- pass 2

  /// "%s%s" with opcode "0" and the 15 bits of the address.
  function AWord(address: u32): string { "0" + Bits(address, 15) }

  /// "%s%s%s%s" with opcode "111" and the 7, 3 and 3 bits of the codes.
  function CWord(comp: u32, dest: u32, jump: u32): string
  {
    "111" + Bits(comp, 7) + Bits(dest, 3) + Bits(jump, 3)
  }

  /// The address of an A-instruction: `atoi` of a text that starts with a
  /// digit (converted to `unsigned`), the table's value for anything else.
  function Address(m: map<string, u32>, aInstr: string): u32
  {
    if aInstr != [] && IsDigit(aInstr[0]) then ToUnsigned(Atoi(aInstr)) else Lookup(m, aInstr)
  }

  /// The words the second pass writes for one decoded line.
  function Words(m: map<string, u32>, code: Code): seq<string>
  {
    match code
    case NoCode => []
    case AIns(aInstr) => [AWord(Address(m, aInstr))]
    case CIns(dest, comp, jump) => [CWord(Lookup(m, comp), Lookup(m, dest), Lookup(m, jump))]
  }

  /// The second pass over `lines[i..]` after it has written `out`.
  function SecondPass(m: map<string, u32>, lines: seq<string>, i: nat, out: seq<string>): seq<string>
    requires i <= |lines|
    decreases |lines| - i
  {
    if i == |lines| then out else SecondPass(m, lines, i + 1, out + Words(m, DecodeOf(lines[i])))
  }

  /// The whole assembler.
  function Assemble(lines: seq<string>): seq<string>
  {
    var st := FirstPass(Pass1(InitialTable(), 0, START_SYMBOL_ADDRESS), Scans(lines), 0);
    SecondPass(st.table, lines, 0, [])
  }

  // ------------------------------------------------------------ the program

  /// The `addEntry` calls that fill the table before the first pass.
  method AddEach(symbols: SymbolTable, kvs: seq<(string, u32)>)
    requires symbols.Valid()
    modifies symbols, symbols.buckets
    ensures symbols.Valid() && symbols.buckets == old(symbols.buckets)
    ensures symbols.contents == AddFrom(old(symbols.contents), kvs, 0)
  {
    ghost var expected := AddFrom(symbols.contents, kvs, 0);
    var i := 0;
    while i < |kvs|
      invariant i <= |kvs| && symbols.Valid() && symbols.buckets == old(symbols.buckets)
      invariant AddFrom(symbols.contents, kvs, i) == expected
    {
      symbols.Add(kvs[i].0, kvs[i].1);
      i := i + 1;
    }
  }

  /// One iteration of the first-pass loop, on `lines[i]`.
  method FirstPassIteration(symbols: SymbolTable, lines: seq<string>, ghost scans: seq<Scan>, i: nat,
                            lineNumber: nat, nextAddress: nat)
      returns (lineNumber': nat, nextAddress': nat)
    requires symbols.Valid() && i < |lines| && scans == Scans(lines)
    modifies symbols, symbols.buckets
    ensures symbols.Valid() && symbols.buckets == old(symbols.buckets)
    ensures Pass1(symbols.contents, lineNumber', nextAddress')
      == FirstLine(Pass1(old(symbols.contents), lineNumber, nextAddress), scans[i])
  {
    ScansAt(lines, i);
    var scan := ScanLine(lines[i]);
    lineNumber', nextAddress' := lineNumber, nextAddress;
    if scan.symbol != [] {
      if scan.isLabel {
        symbols.Add(scan.symbol, ToUnsigned(lineNumber));
      } else if scan.symbol != "SP" && scan.symbol != "R0" {
        var address := symbols.Get(scan.symbol);
        if address == 0 {
          symbols.Add(scan.symbol, ToUnsigned(nextAddress));
          nextAddress' := nextAddress + 1;
        }
      }
    }
    if scan.isInstr {
      lineNumber' := lineNumber + 1;
    }
  }

  /// The first pass of `main`.
  method FirstPassLines(symbols: SymbolTable, lines: seq<string>)
    requires symbols.Valid()
    modifies symbols, symbols.buckets
    ensures symbols.Valid() && symbols.buckets == old(symbols.buckets)
    ensures symbols.contents
      == FirstPass(Pass1(old(symbols.contents), 0, START_SYMBOL_ADDRESS), Scans(lines), 0).table
  {
    ghost var scans := Scans(lines);
    ghost var expected := FirstPass(Pass1(symbols.contents, 0, START_SYMBOL_ADDRESS), scans, 0);
    var nextAddress := START_SYMBOL_ADDRESS;
    var lineNumber := 0;
    var i := 0;
    while i < |lines|
      invariant i <= |lines| && symbols.Valid() && symbols.buckets == old(symbols.buckets)
      invariant FirstPass(Pass1(symbols.contents, lineNumber, nextAddress), scans, i) == expected
    {
      lineNumber, nextAddress := FirstPassIteration(symbols, lines, scans, i, lineNumber, nextAddress);
      i := i + 1;
    }
  }

  /// `addrToStr` of an `unsigned` address into its 15 bits, behind opcode "0".
  method EncodeA(address: u32) returns (word: string)
    ensures word == AWord(address)
  {
    var bits := AddrToStr(WrapInt(address), 15);
    WrapIntBits(address, 15);
    word := "0" + bits;
  }

  /// The three lookups and `addrToStr` calls of a C-instruction.
  method EncodeC(symbols: SymbolTable, dest: string, comp: string, jmp: string) returns (word: string)
    requires symbols.Valid()
    ensures word == CWord(Lookup(symbols.contents, comp), Lookup(symbols.contents, dest), Lookup(symbols.contents, jmp))
  {
    var c := symbols.Get(comp);
    var compBits := AddrToStr(WrapInt(c), 7);
    WrapIntBits(c, 7);
    var d := symbols.Get(dest);
    var destBits := AddrToStr(WrapInt(d), 3);
    WrapIntBits(d, 3);
    var j := symbols.Get(jmp);
    var jmpBits := AddrToStr(WrapInt(j), 3);
    WrapIntBits(j, 3);
    word := "111" + compBits + destBits + jmpBits;
  }

  /// The body of the second-pass loop for one line.
  method TranslateLine(symbols: SymbolTable, line: string) returns (words: seq<string>)
    requires symbols.Valid()
    ensures words == Words(symbols.contents, DecodeOf(line))
  {
    var code := DecodeHackLine(line);
    match code {
      case NoCode =>
        words := [];
      case AIns(aInstr) =>
        var address: u32;
        if aInstr != [] && IsDigit(aInstr[0]) {
          address := ToUnsigned(Atoi(aInstr));
        } else {
          address := symbols.Get(aInstr);
        }
        var word := EncodeA(address);
        words := [word];
      case CIns(dest, comp, jmp) =>
        var word := EncodeC(symbols, dest, comp, jmp);
        words := [word];
    }
  }

  /// The second pass of `main`.
  method SecondPassLines(symbols: SymbolTable, lines: seq<string>) returns (out: seq<string>)
    requires symbols.Valid()
    ensures out == SecondPass(symbols.contents, lines, 0, [])
  {
    ghost var expected := SecondPass(symbols.contents, lines, 0, []);
    out := [];
    var i := 0;
    while i < |lines|
      invariant i <= |lines| && SecondPass(symbols.contents, lines, i, out) == expected
    {
      var words := TranslateLine(symbols, lines[i]);
      out := out + words;
      i := i + 1;
    }
  }

  /// `main` between opening the file and closing it.
  method AssembleLines(lines: seq<string>) returns (out: seq<string>)
    ensures out == Assemble(lines)
  {
    var symbols := new SymbolTable();
    AddEach(symbols, Assembler.PREDEFINED);
    FirstPassLines(symbols, lines);
    out := SecondPassLines(symbols, lines);
  }
}

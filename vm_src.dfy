/// The VM-to-Hack translator of src/VMTranslator.c. It splits lines like the
/// one of 8/VMTranslator.c and writes the same push, pop, arithmetic,
/// branching and function blocks, but it echoes each source line as a
/// comment, keeps no instruction count, names comparison labels by the line
/// number alone, and gives every call in a function the same return label.
module VmSrc {
  import opened CLib
  import opened VmWords
  import Vm8

  // ------------------------------------------------------- generated text

  /// The file text of `lines`, each ended by a newline.
  function Text(lines: seq<string>): string
  {
    if lines == [] then "" else Text(lines[..|lines| - 1]) + lines[|lines| - 1] + "\n"
  }

  /// The labels of a comparison on line `lineNumber`: `kind` is "EQ", "GT"
  /// or "LT" and `jump` its jump.
  function CompareLines(kind: string, jump: string, lineNumber: nat): seq<string>
  {
    var yes := kind + "_" + Vm8.Num(lineNumber);
    var cont := "CONT_" + Vm8.Num(lineNumber);
    Vm8.Tab(["@SP", "AM=M-1", "D=M", "@SP", "AM=M-1", "D=M-D", "@" + yes, "D;" + jump,
         "@SP", "A=M", "M=0", "@" + cont, "0;JMP"])
    + [Vm8.Label(yes)] + Vm8.Tab(["@SP", "A=M", "M=-1"]) + [Vm8.Label(cont)] + Vm8.Tab(["@SP", "M=M+1"])
  }

  /// The return label of every call made inside `foo`.
  function ReturnLabel(foo: string): string { foo + "$__return__" }

  /// Push a saved register, with the trailing comment the source writes.
  function PushSaved(register: string, note: string): seq<string>
  {
    ["@" + register, "D=M", "@SP", "M=M+1", "A=M-1", "M=D\t\t\t// push " + note]
  }

  /// `call f n` inside the function `foo`: the return address is `foo`'s
  /// shared return label and the jump goes to `foo`, not to `f`.
  function CallLines(foo: string, c: nat): seq<string>
  {
    Vm8.Tab(["@" + ReturnLabel(foo), "D=A", "@SP", "M=M+1", "A=M-1", "M=D\t\t\t// push return-address"]
        + PushSaved("LCL", "LCL") + PushSaved("ARG", "ARG") + PushSaved("THIS", "THIS") + PushSaved("THAT", "THAT")
        + ["D=A+1", "@" + Vm8.Num(c + 5), "D=D-A", "@ARG", "M=D\t\t\t// ARG = SP-n-5",
           "@SP", "D=M", "@LCL", "M=D\t\t\t// LCL = SP", "@" + foo, "0;JMP\t\t// goto FOO"])
    + [Vm8.Label(ReturnLabel(foo))]
  }

  /// `return`, with the trailing comments the source writes.
  const RETURN_LINES: seq<string> := Vm8.Tab([
    "@LCL", "D=M", "@R14", "M=D\t\t\t// FRAME = LCL",
    "@5", "A=D-A", "D=M", "@R15", "M=D\t\t\t// RET = *(FRAME - 5)",
    "@SP", "AM=M-1", "D=M", "@ARG", "A=M", "M=D\t\t\t// *ARG = pop()",
    "D=A+1", "@SP", "M=D\t\t\t// SP = ARG + 1",
    "@R14", "AM=M-1", "D=M", "@THAT", "M=D\t\t\t// THAT = *(FRAME - 1)",
    "@R14", "AM=M-1", "D=M", "@THIS", "M=D\t\t\t// THIS = *(FRAME - 2)",
    "@R14", "AM=M-1", "D=M", "@ARG", "M=D\t\t\t// ARG = *(FRAME - 3)",
    "@R14", "A=M-1", "D=M", "@LCL", "M=D\t\t\t// LCL = *(FRAME - 4)",
    "@R15", "A=M", "0;JMP\t\t\t// goto RET"])

  /// The lines of an accepted command.
  function SrcBlock(command: Vm8.Command, segment: Vm8.Segment, w: Words, c: nat, foo: string, fname: string,
                    lineNumber: nat): seq<string>
  {
    match command
    case Push => Vm8.PushBlock(segment, c, fname)
    case Pop => Vm8.PopBlock(segment, w.arg2, c, fname)
    case Add => Vm8.BinaryBlock("M=D+M")
    case Sub => Vm8.BinaryBlock("M=M-D")
    case Neg => Vm8.UnaryBlock("M=-M")
    case Eq => CompareLines("EQ", "JEQ", lineNumber)
    case Gt => CompareLines("GT", "JGT", lineNumber)
    case Lt => CompareLines("LT", "JLT", lineNumber)
    case And => Vm8.LogicBlock("M=D&M")
    case Or => Vm8.LogicBlock("M=D|M")
    case Not => Vm8.UnaryBlock("M=!M")
    case LabelCommand => [Vm8.Label(foo + "$" + w.arg1)]
    case Goto => Vm8.Tab(["@" + foo + "$" + w.arg1, "0;JMP"])
    case IfGoto => Vm8.Tab(["@SP", "AM=M-1", "D=M", "@" + foo + "$" + w.arg1, "D;JNE"])
    case Call => CallLines(foo, c)
    case Function => Vm8.FunctionBlock(w.arg1, w.arg2)
    case Return => RETURN_LINES
    case Unknown => []
  }

  // ------------------------------------------------------------- the state

  /// The `foo_name` buffer and the text written so far.
  datatype Src = Src(foo: string, text: string)

  /// `write_command`: the bounds check of arg2, then the command's lines.
  /// A rejected command changes nothing.
  function Emit(st: Src, w: Words, fname: string, lineNumber: nat): Result<Src>
  {
    EmitValue(st, w, Atoi(w.arg2), fname, lineNumber)
  }

  /// `write_command` once `c = atoi(arg2)` is known; only `function` sets
  /// `foo_name`.
  function EmitValue(st: Src, w: Words, c: int, fname: string, lineNumber: nat): Result<Src>
  {
    var command, segment := Vm8.CommandOf(w.command), Vm8.SegmentOf(w.arg1);
    if c < 0 || c > Vm8.MAX_CONSTANT then Err("Address out of bounds")
    else if command.Unknown? then Err("Invalid command")
    else if !Vm8.ValidSegment(command, segment) then Err("Invalid segment reference")
    else
      Ok(Src(if command.Function? then w.arg1 else st.foo,
             st.text + Text(SrcBlock(command, segment, w, c, st.foo, fname, lineNumber))))
  }

  /// The echo of a line: "// " and the line buffer as the split left it,
  /// which ends in a newline only if the line did or the split wrote one.
  function Echo(line: string): string { "// " + LineAfter(line) }

  /// The outcome of one line of src/VMTranslator.c.
  datatype SrcStep = Next(src: Src) | Stop(src: Src, failure: Vm8.Failure)

  /// The body of the loop of `parse_file`: a line without a word is skipped;
  /// otherwise it is echoed and written, and a rejected command stops the
  /// file.
  function LineStep(st: Src, fname: string, line: string, lineNumber: nat): SrcStep
  {
    var w := SplitLine(line);
    if w.command == "" then Next(st)
    else
      var st' := st.(text := st.text + Echo(line));
      match Emit(st', w, fname, lineNumber)
      case Ok(next) => Next(next)
      case Err(m) => Stop(st', Vm8.Failure(lineNumber, m))
  }

  /// The loop of `parse_file` from `lines[i]` on; line numbers count from 1.
  function Lines(st: Src, fname: string, lines: seq<string>, i: nat): (Src, Option<Vm8.Failure>)
    requires i <= |lines|
    decreases |lines| - i
  {
    if i == |lines| then (st, None)
    else
      match LineStep(st, fname, lines[i], i + 1)
      case Next(next) => Lines(next, fname, lines, i + 1)
      case Stop(v, f) => (v, Some(f))
  }

  /// The heading `parse_file` writes: a blank line and "// <file>".
  function Heading(fname: string): string { "\n// " + fname + "\n" }

  /// `parse_file`. `foo_name` is a fresh, uninitialised buffer; the model
  /// starts from `st.foo`.
  function ParseFile(st: Src, fname: string, lines: seq<string>): (Src, Option<Vm8.Failure>)
  {
    Lines(st.(text := st.text + Heading(fname)), fname, lines, 0)
  }

  /// `sys_init`: SP = 256, then a jump (not a call) to Sys.init.
  function SysInit(dname: string): string
  {
    "// " + dname + "\n\n" + "// Bootstrap Sys.init\n" + Text(Vm8.Tab(["@256", "D=A", "@SP", "M=D", "@Sys.init", "0;JMP"]))
  }

  // ------------------------------------------------------------ the program

  class SrcTranslator {
    var fooName: string
    var text: string

    function State(): Src
      reads this
    {
      Src(fooName, text)
    }

    constructor (foo: string)
      ensures State() == Src(foo, "")
    {
      fooName := foo;
      text := "";
    }

    /// `write_command`.
    method WriteCommand(w: Words, fname: string, lineNumber: nat) returns (error: Option<string>)
      modifies this
      ensures Emit(old(State()), w, fname, lineNumber) == if error.None? then Ok(State()) else Err(error.value)
      ensures error.Some? ==> State() == old(State())
    {
      var c := Atoi(w.arg2);
      error := WriteValue(w, c, fname, lineNumber);
    }

    /// `write_command` once `c = atoi(arg2)` is known.
    method WriteValue(w: Words, c: int, fname: string, lineNumber: nat) returns (error: Option<string>)
      modifies this
      ensures EmitValue(old(State()), w, c, fname, lineNumber) == if error.None? then Ok(State()) else Err(error.value)
      ensures error.Some? ==> State() == old(State())
    {
      if c < 0 || c > Vm8.MAX_CONSTANT {
        return Some("Address out of bounds");
      }
      var command, segment := Vm8.CommandOf(w.command), Vm8.SegmentOf(w.arg1);
      if command.Unknown? {
        return Some("Invalid command");
      }
      if !Vm8.ValidSegment(command, segment) {
        return Some("Invalid segment reference");
      }
      var block := SrcBlock(command, segment, w, c, fooName, fname, lineNumber);
      if command.Function? {
        fooName := w.arg1;
      }
      text := text + Text(block);
      error := None;
    }

    /// One iteration of the loop of `parse_file`.
    method ParseLine(fname: string, line: string, lineNumber: nat) returns (failure: Option<Vm8.Failure>)
      modifies this
      ensures LineStep(old(State()), fname, line, lineNumber)
           == if failure.None? then Next(State()) else Stop(State(), failure.value)
    {
      var w, after := SplitWords(line);
      if w.command != "" {
        var echo := "// " + after;
        text := text + echo;
        var error := WriteCommand(w, fname, lineNumber);
        if error.Some? {
          return Some(Vm8.Failure(lineNumber, error.value));
        }
      }
      failure := None;
    }

    /// `parse_file`.
    method ParseLines(fname: string, lines: seq<string>) returns (failure: Option<Vm8.Failure>)
      modifies this
      ensures (State(), failure) == ParseFile(old(State()), fname, lines)
    {
      text := text + Heading(fname);
      ghost var inner := Lines(State(), fname, lines, 0);
      var i := 0;
      failure := None;
      while i < |lines| && failure.None?
        invariant i <= |lines|
        invariant failure.None? ==> Lines(State(), fname, lines, i) == inner
        invariant failure.Some? ==> (State(), failure) == inner
      {
        failure := ParseLine(fname, lines[i], i + 1);
        i := i + 1;
      }
    }
  }
}

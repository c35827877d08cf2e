/// The VM-to-Hack translator of 8/VMTranslator.c: each VM command becomes a
/// fixed block of Hack assembly, and a running count of the instructions
/// written so far (`commandNumber`) numbers the return points of calls.
module Vm8 {
  import opened CLib
  import opened VmWords

  const MAX_CONSTANT: int := 32767
  /// `commandNumber` is a C `unsigned`.
  const WORD: nat := 0x1_0000_0000

  // ------------------------------------------------------- generated text

  /// A line of the generated file that the assembler turns into an
  /// instruction: not blank, not a label "(...)", not a comment "//...".
  predicate IsInstruction(line: string) { line != [] && line[0] != '(' && line[0] != '/' }

  /// The number of instruction lines in `lines`.
  function Instructions(lines: seq<string>): nat
  {
    if lines == [] then 0
    else Instructions(lines[..|lines| - 1]) + if IsInstruction(lines[|lines| - 1]) then 1 else 0
  }

  /// Lines indented by a tab, as every `fprintf` of an instruction but one
  /// writes them.
  function Tab(texts: seq<string>): (r: seq<string>)
    ensures |r| == |texts| && forall i :: 0 <= i < |texts| ==> r[i] == "\t" + texts[i]
  {
    seq(|texts|, i requires 0 <= i < |texts| => "\t" + texts[i])
  }

  function Label(name: string): string { "(" + name + ")" }

  /// `%zu`/`%u`/`%d` of a non-negative value.
  function Num(n: nat): string { NatStr(n) }

  // ------------------------------------------------------------ the blocks

  /// Store D on the stack and advance SP.
  const PUSH_D: seq<string> := ["@SP", "M=M+1", "A=M-1", "M=D"]
  /// Park the address in R13, pop the stack into D and store it there.
  const POP_TO_R13: seq<string> := ["@R13", "M=D", "@SP", "AM=M-1", "D=M", "@R13", "A=M", "M=D"]

  /// The commands `write_command` knows, by their names.
  datatype Command =
    | Push | Pop | Add | Sub | Neg | Eq | Gt | Lt | And | Or | Not
    | LabelCommand | Goto | IfGoto | Call | Function | Return | Unknown

  function CommandOf(name: string): Command
  {
    if name == "push" then Push
    else if name == "pop" then Pop
    else if name == "add" then Add
    else if name == "sub" then Sub
    else if name == "neg" then Neg
    else if name == "eq" then Eq
    else if name == "gt" then Gt
    else if name == "lt" then Lt
    else if name == "and" then And
    else if name == "or" then Or
    else if name == "not" then Not
    else if name == "label" then LabelCommand
    else if name == "goto" then Goto
    else if name == "if-goto" then IfGoto
    else if name == "call" then Call
    else if name == "function" then Function
    else if name == "return" then Return
    else Unknown
  }

  /// The memory segments of push and pop; `Based` ones are addressed through
  /// a base register.
  datatype Segment = Constant | Static | Temp | Pointer | Based(base: string) | NoSegment

  function SegmentOf(name: string): Segment
  {
    if name == "constant" then Constant
    else if name == "static" then Static
    else if name == "temp" then Temp
    else if name == "pointer" then Pointer
    else if name == "local" then Based("LCL")
    else if name == "argument" then Based("ARG")
    else if name == "this" then Based("THIS")
    else if name == "that" then Based("THAT")
    else NoSegment
  }

  /// The segments push and pop accept: pop has no constant segment.
  predicate ValidSegment(command: Command, segment: Segment)
  {
    match command
    case Push => !segment.NoSegment?
    case Pop => !segment.NoSegment? && !segment.Constant?
    case _ => true
  }

  /// `push <segment> c`.
  function PushBlock(segment: Segment, c: nat, fname: string): seq<string>
  {
    match segment
    case Constant => Tab(["@" + Num(c), "D=A"] + PUSH_D)
    case Static => Tab(["@" + fname + "." + Num(c), "D=M"] + PUSH_D)
    case Temp => Tab(["@" + Num(c), "D=A", "@5", "A=D+A", "D=M"] + PUSH_D)
    case Pointer => [if c != 0 then "\t@THAT" else "\t@THIS", "D=M"] + Tab(PUSH_D)
    case Based(base) => Tab(["@" + Num(c), "D=A", "@" + base, "A=D+M", "D=M"] + PUSH_D)
    case NoSegment => []
  }

  /// `pop <segment> arg2` (the static slot is named by the text of arg2).
  function PopBlock(segment: Segment, arg2: string, c: nat, fname: string): seq<string>
  {
    match segment
    case Static => Tab(["@SP", "AM=M-1", "D=M", "@" + fname + "." + arg2, "M=D"])
    case Temp => Tab(["@" + Num(c), "D=A", "@5", "D=D+A"] + POP_TO_R13)
    case Pointer => Tab(["@" + Num(c), "D=A", "@3", "D=D+A"] + POP_TO_R13)
    case Based(base) => Tab(["@" + Num(c), "D=A", "@" + base, "D=D+M"] + POP_TO_R13)
    case _ => []
  }

  /// Pop two values and push `D op M`: add and sub.
  function BinaryBlock(op: string): seq<string>
  {
    Tab(["@SP", "M=M-1", "A=M", "D=M", "@SP", "M=M-1", "A=M", op, "@SP", "M=M+1"])
  }

  /// Replace the top of the stack: neg and not.
  function UnaryBlock(op: string): seq<string>
  {
    Tab(["@SP", "A=M-1", op])
  }

  /// Pop one value and combine it with the new top: and and or.
  function LogicBlock(op: string): seq<string>
  {
    Tab(["@SP", "AM=M-1", "D=M", "@SP", "A=M-1", op])
  }

  /// The labels of a comparison on line `lineNumber`.
  function CompareName(foo: string, kind: string, lineNumber: nat): string
  {
    foo + "$__" + kind + "_" + Num(lineNumber) + "__"
  }

  /// eq, gt or lt: `kind` is "eq", "gt" or "lt" and `jump` its jump.
  function CompareBlock(kind: string, jump: string, foo: string, lineNumber: nat): seq<string>
  {
    var yes := CompareName(foo, kind, lineNumber);
    var cont := CompareName(foo, "cont", lineNumber);
    Tab(["@SP", "AM=M-1", "D=M", "@SP", "AM=M-1", "D=M-D", "@" + yes, "D;" + jump,
         "@SP", "A=M", "M=0", "@" + cont, "0;JMP"])
    + [Label(yes)] + Tab(["@SP", "A=M", "M=-1"]) + [Label(cont)] + Tab(["@SP", "M=M+1"])
  }

  /// The return label of a call to `callee` whose block ends the ROM at
  /// `counter` (`%u` of `commandNumber`).
  function ReturnName(callee: string, counter: nat): string
  {
    callee + "$__return_" + Num(counter % WORD) + "__"
  }

  /// Push a register's value.
  function PushRegister(register: string): seq<string>
  {
    ["@" + register, "D=M"] + PUSH_D
  }

  /// `call callee n`, where `counter` is `commandNumber` after the call.
  function CallBlock(callee: string, c: nat, counter: nat): seq<string>
  {
    var ret := ReturnName(callee, counter);
    Tab(["@" + ret, "D=A"] + PUSH_D + PushRegister("LCL") + PushRegister("ARG") + PushRegister("THIS")
        + PushRegister("THAT")
        + ["D=A+1", "@" + Num(c + 5), "D=D-A", "@ARG", "M=D", "@SP", "D=M", "@LCL", "M=D", "@" + callee, "0;JMP"])
    + [Label(ret)]
  }

  /// `function f k`: the entry label and a loop pushing `k` zeros.
  function FunctionBlock(f: string, arg2: string): seq<string>
  {
    [Label(f)] + Tab(["@" + arg2, "D=A", "@" + f + "$__endinit__", "D;JEQ"])
    + [Label(f + "$__init__")]
    + Tab(["@SP", "M=M+1", "A=M-1", "M=0", "D=D-1", "@" + f + "$__init__", "D;JGT"])
    + [Label(f + "$__endinit__")]
  }

  /// Restore the caller's frame from LCL and jump to the return address.
  const RETURN_BLOCK: seq<string> := Tab([
    "@LCL", "D=M", "@R14", "M=D", "@5", "A=D-A", "D=M", "@R15", "M=D",
    "@SP", "AM=M-1", "D=M", "@ARG", "A=M", "M=D", "D=A+1", "@SP", "M=D",
    "@R14", "AM=M-1", "D=M", "@THAT", "M=D",
    "@R14", "AM=M-1", "D=M", "@THIS", "M=D",
    "@R14", "AM=M-1", "D=M", "@ARG", "M=D",
    "@R14", "A=M-1", "D=M", "@LCL", "M=D",
    "@R15", "A=M", "0;JMP"])

  /// The block of an accepted command; `counter` is `commandNumber` after
  /// the command.
  function Block(command: Command, segment: Segment, w: Words, c: nat, foo: string, fname: string,
                 lineNumber: nat, counter: nat): seq<string>
  {
    match command
    case Push => PushBlock(segment, c, fname)
    case Pop => PopBlock(segment, w.arg2, c, fname)
    case Add => BinaryBlock("M=D+M")
    case Sub => BinaryBlock("M=M-D")
    case Neg => UnaryBlock("M=-M")
    case Eq => CompareBlock("eq", "JEQ", foo, lineNumber)
    case Gt => CompareBlock("gt", "JGT", foo, lineNumber)
    case Lt => CompareBlock("lt", "JLT", foo, lineNumber)
    case And => LogicBlock("M=D&M")
    case Or => LogicBlock("M=D|M")
    case Not => UnaryBlock("M=!M")
    case LabelCommand => [Label(foo + "$" + w.arg1)]
    case Goto => Tab(["@" + foo + "$" + w.arg1, "0;JMP"])
    case IfGoto => Tab(["@SP", "AM=M-1", "D=M", "@" + foo + "$" + w.arg1, "D;JNE"])
    case Call => CallBlock(w.arg1, c, counter)
    case Function => FunctionBlock(w.arg1, w.arg2)
    case Return => RETURN_BLOCK
    case Unknown => []
  }

  /// The amounts `write_command` adds to `commandNumber`, command by command
  /// (for push, by segment).
  function Increment(command: Command, segment: Segment): nat
  {
    match command
    case Push => if segment.Constant? || segment.Static? || segment.Pointer? then 6 else 9
    case Pop => if segment.Static? then 5 else 12
    case Add | Sub => 10
    case Neg | Not => 3
    case Eq | Gt | Lt => 18
    case And | Or => 6
    case Goto => 2
    case IfGoto => 5
    case Call | Return => 41
    case Function => 11
    case _ => 0
  }

  // ------------------------------------------------------------- the state

  /// `commandNumber`, the `foo_name` buffer and the output written so far.
  datatype Vm = Vm(counter: nat, foo: string, out: seq<string>)

  /// `write_command`: the bounds check of arg2, then the command's block.
  /// A rejected command changes nothing.
  function Emit(st: Vm, w: Words, fname: string, lineNumber: nat): Result<Vm>
  {
    EmitValue(st, w, Atoi(w.arg2), fname, lineNumber)
  }

  /// `write_command` once `c = atoi(arg2)` is known.
  function EmitValue(st: Vm, w: Words, c: int, fname: string, lineNumber: nat): Result<Vm>
  {
    var command, segment := CommandOf(w.command), SegmentOf(w.arg1);
    if c < 0 || c > MAX_CONSTANT then Err("Address out of bounds")
    else if command.Unknown? then Err("Invalid command")
    else if !ValidSegment(command, segment) then Err("Invalid segment reference")
    else
      var counter := st.counter + Increment(command, segment);
      Ok(Vm(counter, if command.Call? || command.Function? then w.arg1 else st.foo,
            st.out + Block(command, segment, w, c, st.foo, fname, lineNumber, counter)))
  }

  /// The comment `parse_file` writes before each command.
  function Comment(counter: nat, w: Words): string
  {
    "// [" + IntStr(WrapInt(counter)) + "] " + w.command + " " + w.arg1 + " " + w.arg2
  }

  /// Where a file stopped: the line number and the message.
  datatype Failure = Failure(lineNumber: nat, message: string)

  /// The outcome of one line: go on from a state, or stop at a failure.
  datatype Step = Next(vm: Vm) | Stop(vm: Vm, failure: Failure)

  /// The body of the loop of `parse_file` for the line numbered
  /// `lineNumber`: a line without a word is skipped; otherwise the command is
  /// echoed as a comment and written, and a rejected command stops the file.
  function LineStep(st: Vm, fname: string, line: string, lineNumber: nat): Step
  {
    var w := SplitLine(line);
    if w.command == "" then Next(st)
    else
      var st' := st.(out := st.out + [Comment(st.counter, w)]);
      match Emit(st', w, fname, lineNumber)
      case Ok(next) => Next(next)
      case Err(m) => Stop(st', Failure(lineNumber, m))
  }

  /// The loop of `parse_file` from `lines[i]` on; line numbers count from 1.
  function Lines(st: Vm, fname: string, lines: seq<string>, i: nat): (Vm, Option<Failure>)
    requires i <= |lines|
    decreases |lines| - i
  {
    if i == |lines| then (st, None)
    else
      match LineStep(st, fname, lines[i], i + 1)
      case Next(next) => Lines(next, fname, lines, i + 1)
      case Stop(v, f) => (v, Some(f))
  }

  /// `parse_file`: a heading, the lines, and a blank line. `foo_name` is a
  /// fresh, uninitialised buffer; the model starts from `st.foo`.
  function ParseFile(st: Vm, fname: string, lines: seq<string>): (Vm, Option<Failure>)
  {
    var (v, e) := Lines(st.(out := st.out + ["// " + fname]), fname, lines, 0);
    (v.(out := v.out + [""]), e)
  }

  /// `sys_init`: SP = 256.
  function SysInit(dname: string): seq<string>
  {
    ["// " + dname, "", "// [0] Bootstrap Sys.init"] + Tab(["@256", "D=A", "@SP", "M=D"])
  }

  /// The start of the file written for a directory: `sys_init`, the counter
  /// advanced by its 4 instructions, then `call Sys.init 0` with an empty file
  /// name on line 0, and a blank line. `foo` is the uninitialised
  /// `foo_name_init` buffer.
  function Bootstrap(dname: string, foo: string): Vm
  {
    var st := Vm(4, foo, SysInit(dname));
    match Emit(st, Words("call", "Sys.init", "0"), "", 0)
    case Ok(v) => v.(out := v.out + [""])
    case Err(_) => st
  }

  // ------------------------------------------------------------ the program

  class Translator {
    var commandNumber: nat
    var fooName: string
    var out: seq<string>

    function State(): Vm
      reads this
    {
      Vm(commandNumber, fooName, out)
    }

    constructor (counter: nat, foo: string)
      ensures State() == Vm(counter, foo, [])
    {
      commandNumber := counter;
      fooName := foo;
      out := [];
    }

    /// `write_command`.
    method WriteCommand(w: Words, fname: string, lineNumber: nat) returns (error: Option<string>)
      modifies this
      ensures Emit(old(State()), w, fname, lineNumber) == if error.None? then Ok(State()) else Err(error.value)
      ensures error.Some? ==> State() == old(State())
    {
      var c := Atoi(w.arg2);
      error := WriteValue(w, c, fname, lineNumber);
    }

    /// `write_command` once `c = atoi(arg2)` is known.
    method WriteValue(w: Words, c: int, fname: string, lineNumber: nat) returns (error: Option<string>)
      modifies this
      ensures EmitValue(old(State()), w, c, fname, lineNumber) == if error.None? then Ok(State()) else Err(error.value)
      ensures error.Some? ==> State() == old(State())
    {
      if c < 0 || c > MAX_CONSTANT {
        return Some("Address out of bounds");
      }
      var command, segment := CommandOf(w.command), SegmentOf(w.arg1);
      if command.Unknown? {
        return Some("Invalid command");
      }
      if !ValidSegment(command, segment) {
        return Some("Invalid segment reference");
      }
      var increment := Increment(command, segment);
      var block := Block(command, segment, w, c, fooName, fname, lineNumber, commandNumber + increment);
      commandNumber := commandNumber + increment;
      if command.Call? || command.Function? {
        fooName := w.arg1;
      }
      out := out + block;
      error := None;
    }

    /// One iteration of the loop of `parse_file`.
    method ParseLine(fname: string, line: string, lineNumber: nat) returns (failure: Option<Failure>)
      modifies this
      ensures LineStep(old(State()), fname, line, lineNumber)
           == if failure.None? then Next(State()) else Stop(State(), failure.value)
    {
      var w, _ := SplitWords(line);
      if w.command != "" {
        out := out + [Comment(commandNumber, w)];
        var error := WriteCommand(w, fname, lineNumber);
        if error.Some? {
          return Some(Failure(lineNumber, error.value));
        }
      }
      failure := None;
    }

    /// `parse_file`.
    method ParseLines(fname: string, lines: seq<string>) returns (failure: Option<Failure>)
      modifies this
      ensures (State(), failure) == ParseFile(old(State()), fname, lines)
    {
      out := out + ["// " + fname];
      ghost var inner := Lines(State(), fname, lines, 0);
      var i := 0;
      failure := None;
      while i < |lines| && failure.None?
        invariant i <= |lines|
        invariant failure.None? ==> Lines(State(), fname, lines, i) == inner
        invariant failure.Some? ==> (State(), failure) == inner
      {
        failure := ParseLine(fname, lines[i], i + 1);
        i := i + 1;
      }
      out := out + [""];
    }
  }
}

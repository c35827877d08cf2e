/// What the blocks of 8/VMTranslator.c add up to: `commandNumber` counts
/// exactly the instruction lines written, so it is always the ROM address of
/// the next instruction, and the return labels it numbers are distinct.
module Vm8Props {
  import opened CLib
  import opened VmWords
  import opened Vm8

  // ------------------------------------------------------ counting lines

  lemma {:induction false} InstructionsAppend(a: seq<string>, b: seq<string>)
    ensures Instructions(a + b) == Instructions(a) + Instructions(b)
    decreases |b|
  {
    if b == [] {
      assert a + b == a;
    } else {
      var b' := b[..|b| - 1];
      assert (a + b)[..|a + b| - 1] == a + b';
      assert (a + b)[|a + b| - 1] == b[|b| - 1];
      InstructionsAppend(a, b');
    }
  }

  lemma {:induction false} TabInstructions(texts: seq<string>)
    ensures Instructions(Tab(texts)) == |texts|
    decreases |texts|
  {
    if texts != [] {
      var t' := texts[..|texts| - 1];
      assert Tab(texts)[..|texts| - 1] == Tab(t');
      TabInstructions(t');
    }
  }

  lemma OneLine(line: string)
    ensures Instructions([line]) == if IsInstruction(line) then 1 else 0
  {
    assert [line][..0] == [];
  }

  /// A tab-indented block followed by a label.
  lemma TabThenLabel(texts: seq<string>, name: string)
    ensures Instructions(Tab(texts) + [Label(name)]) == |texts|
  {
    InstructionsAppend(Tab(texts), [Label(name)]);
    TabInstructions(texts);
    OneLine(Label(name));
  }

  /// A label followed by a tab-indented block.
  lemma LabelThenTab(name: string, texts: seq<string>)
    ensures Instructions([Label(name)] + Tab(texts)) == |texts|
  {
    InstructionsAppend([Label(name)], Tab(texts));
    TabInstructions(texts);
    OneLine(Label(name));
  }

  lemma PushCount(segment: Segment, c: nat, fname: string)
    requires !segment.NoSegment?
    ensures Instructions(PushBlock(segment, c, fname)) == Increment(Push, segment)
  {
    match segment
    case Pointer =>
      var first := [if c != 0 then "\t@THAT" else "\t@THIS", "D=M"];
      InstructionsAppend(first, Tab(PUSH_D));
      InstructionsAppend([first[0]], [first[1]]);
      assert [first[0]] + [first[1]] == first;
      OneLine(first[0]);
      OneLine(first[1]);
      TabInstructions(PUSH_D);
    case Constant => TabInstructions(["@" + Num(c), "D=A"] + PUSH_D);
    case Static => TabInstructions(["@" + fname + "." + Num(c), "D=M"] + PUSH_D);
    case Temp => TabInstructions(["@" + Num(c), "D=A", "@5", "A=D+A", "D=M"] + PUSH_D);
    case Based(base) => TabInstructions(["@" + Num(c), "D=A", "@" + base, "A=D+M", "D=M"] + PUSH_D);
  }

  lemma PopCount(segment: Segment, arg2: string, c: nat, fname: string)
    requires !segment.NoSegment? && !segment.Constant?
    ensures Instructions(PopBlock(segment, arg2, c, fname)) == Increment(Pop, segment)
  {
    match segment
    case Static => TabInstructions(["@SP", "AM=M-1", "D=M", "@" + fname + "." + arg2, "M=D"]);
    case Temp => TabInstructions(["@" + Num(c), "D=A", "@5", "D=D+A"] + POP_TO_R13);
    case Pointer => TabInstructions(["@" + Num(c), "D=A", "@3", "D=D+A"] + POP_TO_R13);
    case Based(base) => TabInstructions(["@" + Num(c), "D=A", "@" + base, "D=D+M"] + POP_TO_R13);
  }

  lemma CompareCount(kind: string, jump: string, foo: string, lineNumber: nat)
    ensures Instructions(CompareBlock(kind, jump, foo, lineNumber)) == 18
  {
    var yes := CompareName(foo, kind, lineNumber);
    var cont := CompareName(foo, "cont", lineNumber);
    var a := Tab(["@SP", "AM=M-1", "D=M", "@SP", "AM=M-1", "D=M-D", "@" + yes, "D;" + jump,
                  "@SP", "A=M", "M=0", "@" + cont, "0;JMP"]);
    var b := Tab(["@SP", "A=M", "M=-1"]);
    var d := Tab(["@SP", "M=M+1"]);
    assert CompareBlock(kind, jump, foo, lineNumber) == (a + [Label(yes)]) + (b + [Label(cont)]) + d;
    TabThenLabel(["@SP", "AM=M-1", "D=M", "@SP", "AM=M-1", "D=M-D", "@" + yes, "D;" + jump,
                  "@SP", "A=M", "M=0", "@" + cont, "0;JMP"], yes);
    TabThenLabel(["@SP", "A=M", "M=-1"], cont);
    TabInstructions(["@SP", "M=M+1"]);
    InstructionsAppend(a + [Label(yes)], b + [Label(cont)]);
    InstructionsAppend((a + [Label(yes)]) + (b + [Label(cont)]), d);
  }

  lemma CallCount(callee: string, c: nat, counter: nat)
    ensures Instructions(CallBlock(callee, c, counter)) == 41
  {
    var ret := ReturnName(callee, counter);
    TabThenLabel(["@" + ret, "D=A"] + PUSH_D + PushRegister("LCL") + PushRegister("ARG") + PushRegister("THIS")
                 + PushRegister("THAT")
                 + ["D=A+1", "@" + Num(c + 5), "D=D-A", "@ARG", "M=D", "@SP", "D=M", "@LCL", "M=D", "@" + callee, "0;JMP"],
                 ret);
  }

  lemma FunctionCount(f: string, arg2: string)
    ensures Instructions(FunctionBlock(f, arg2)) == 11
  {
    var a := Tab(["@" + arg2, "D=A", "@" + f + "$__endinit__", "D;JEQ"]);
    var b := Tab(["@SP", "M=M+1", "A=M-1", "M=0", "D=D-1", "@" + f + "$__init__", "D;JGT"]);
    assert FunctionBlock(f, arg2) == ([Label(f)] + a) + ([Label(f + "$__init__")] + b) + [Label(f + "$__endinit__")];
    LabelThenTab(f, ["@" + arg2, "D=A", "@" + f + "$__endinit__", "D;JEQ"]);
    LabelThenTab(f + "$__init__", ["@SP", "M=M+1", "A=M-1", "M=0", "D=D-1", "@" + f + "$__init__", "D;JGT"]);
    OneLine(Label(f + "$__endinit__"));
    InstructionsAppend([Label(f)] + a, [Label(f + "$__init__")] + b);
    InstructionsAppend(([Label(f)] + a) + ([Label(f + "$__init__")] + b), [Label(f + "$__endinit__")]);
  }

  /// Every block has exactly as many instruction lines as `write_command`
  /// adds to `commandNumber` for it.
  lemma BlockCount(command: Command, segment: Segment, w: Words, c: nat, foo: string, fname: string,
                   lineNumber: nat, counter: nat)
    requires !command.Unknown? && ValidSegment(command, segment)
    ensures Instructions(Block(command, segment, w, c, foo, fname, lineNumber, counter)) == Increment(command, segment)
  {
    match command
    case Push => PushCount(segment, c, fname);
    case Pop => PopCount(segment, w.arg2, c, fname);
    case Add => TabInstructions(["@SP", "M=M-1", "A=M", "D=M", "@SP", "M=M-1", "A=M", "M=D+M", "@SP", "M=M+1"]);
    case Sub => TabInstructions(["@SP", "M=M-1", "A=M", "D=M", "@SP", "M=M-1", "A=M", "M=M-D", "@SP", "M=M+1"]);
    case Neg => TabInstructions(["@SP", "A=M-1", "M=-M"]);
    case Not => TabInstructions(["@SP", "A=M-1", "M=!M"]);
    case And => TabInstructions(["@SP", "AM=M-1", "D=M", "@SP", "A=M-1", "M=D&M"]);
    case Or => TabInstructions(["@SP", "AM=M-1", "D=M", "@SP", "A=M-1", "M=D|M"]);
    case Eq => CompareCount("eq", "JEQ", foo, lineNumber);
    case Gt => CompareCount("gt", "JGT", foo, lineNumber);
    case Lt => CompareCount("lt", "JLT", foo, lineNumber);
    case LabelCommand => OneLine(Label(foo + "$" + w.arg1));
    case Goto => TabInstructions(["@" + foo + "$" + w.arg1, "0;JMP"]);
    case IfGoto => TabInstructions(["@SP", "AM=M-1", "D=M", "@" + foo + "$" + w.arg1, "D;JNE"]);
    case Call => CallCount(w.arg1, c, counter);
    case Function => FunctionCount(w.arg1, w.arg2);
    case Return => TabInstructions([
      "@LCL", "D=M", "@R14", "M=D", "@5", "A=D-A", "D=M", "@R15", "M=D",
      "@SP", "AM=M-1", "D=M", "@ARG", "A=M", "M=D", "D=A+1", "@SP", "M=D",
      "@R14", "AM=M-1", "D=M", "@THAT", "M=D",
      "@R14", "AM=M-1", "D=M", "@THIS", "M=D",
      "@R14", "AM=M-1", "D=M", "@ARG", "M=D",
      "@R14", "A=M-1", "D=M", "@LCL", "M=D",
      "@R15", "A=M", "0;JMP"]);
  }

  // -------------------------------------------------- the counter invariant

  /// `commandNumber` is the number of instruction lines written so far, that
  /// is, the ROM address the next instruction will get.
  predicate Aligned(st: Vm) { st.counter == Instructions(st.out) }

  lemma EmitValueCounts(st: Vm, w: Words, c: int, fname: string, lineNumber: nat)
    requires EmitValue(st, w, c, fname, lineNumber).Ok?
    ensures var v := EmitValue(st, w, c, fname, lineNumber).value;
            v.counter == st.counter + Increment(CommandOf(w.command), SegmentOf(w.arg1))
            && Instructions(v.out) == Instructions(st.out) + Increment(CommandOf(w.command), SegmentOf(w.arg1))
  {
    var command, segment := CommandOf(w.command), SegmentOf(w.arg1);
    var counter := st.counter + Increment(command, segment);
    var block := Block(command, segment, w, c, st.foo, fname, lineNumber, counter);
    BlockCount(command, segment, w, c, st.foo, fname, lineNumber, counter);
    InstructionsAppend(st.out, block);
  }

  /// An accepted command advances the counter by exactly the instructions it
  /// writes.
  lemma EmitCounts(st: Vm, w: Words, fname: string, lineNumber: nat)
    requires Emit(st, w, fname, lineNumber).Ok?
    ensures var v := Emit(st, w, fname, lineNumber).value;
            v.counter - st.counter == Instructions(v.out) - Instructions(st.out)
            == Increment(CommandOf(w.command), SegmentOf(w.arg1))
            && (Aligned(st) ==> Aligned(v))
  {
    EmitValueCounts(st, w, Atoi(w.arg2), fname, lineNumber);
  }

  /// The comment echoed before each command is not an instruction.
  lemma CommentCounts(st: Vm, w: Words)
    ensures Instructions(st.out + [Comment(st.counter, w)]) == Instructions(st.out)
  {
    InstructionsAppend(st.out, [Comment(st.counter, w)]);
    OneLine(Comment(st.counter, w));
  }

  lemma LineStepAligned(st: Vm, fname: string, line: string, lineNumber: nat)
    requires Aligned(st)
    ensures Aligned(LineStep(st, fname, line, lineNumber).vm)
    ensures LineStep(st, fname, line, lineNumber).vm.counter >= st.counter
  {
    var w := SplitLine(line);
    if w.command != "" {
      var st' := st.(out := st.out + [Comment(st.counter, w)]);
      CommentCounts(st, w);
      if Emit(st', w, fname, lineNumber).Ok? {
        EmitCounts(st', w, fname, lineNumber);
      }
    }
  }

  lemma {:induction false} LinesAligned(st: Vm, fname: string, lines: seq<string>, i: nat)
    requires i <= |lines| && Aligned(st)
    ensures Aligned(Lines(st, fname, lines, i).0)
    ensures Lines(st, fname, lines, i).0.counter >= st.counter
    decreases |lines| - i
  {
    if i < |lines| {
      LineStepAligned(st, fname, lines[i], i + 1);
      match LineStep(st, fname, lines[i], i + 1)
      case Next(next) => LinesAligned(next, fname, lines, i + 1);
      case Stop(_, _) =>
    }
  }

  /// `parse_file` keeps `commandNumber` equal to the instruction count of
  /// everything written, whether or not it stops early.
  lemma ParseFileAligned(st: Vm, fname: string, lines: seq<string>)
    requires Aligned(st)
    ensures Aligned(ParseFile(st, fname, lines).0)
    ensures ParseFile(st, fname, lines).0.counter >= st.counter
  {
    var st0 := st.(out := st.out + ["// " + fname]);
    InstructionsAppend(st.out, ["// " + fname]);
    OneLine("// " + fname);
    LinesAligned(st0, fname, lines, 0);
    var v := Lines(st0, fname, lines, 0).0;
    InstructionsAppend(v.out, [""]);
    OneLine("");
  }

  /// The bootstrap lines of `sys_init` hold its 4 instructions.
  lemma SysInitCounts(dname: string)
    ensures Instructions(SysInit(dname)) == 4
  {
    var heading := ["// " + dname, "", "// [0] Bootstrap Sys.init"];
    InstructionsAppend(heading, Tab(["@256", "D=A", "@SP", "M=D"]));
    TabInstructions(["@256", "D=A", "@SP", "M=D"]);
    InstructionsAppend(["// " + dname, ""], ["// [0] Bootstrap Sys.init"]);
    InstructionsAppend(["// " + dname], [""]);
    assert ["// " + dname] + [""] == ["// " + dname, ""];
    assert ["// " + dname, ""] + ["// [0] Bootstrap Sys.init"] == heading;
    OneLine("// " + dname);
    OneLine("");
    OneLine("// [0] Bootstrap Sys.init");
  }

  /// A `call` with an argument count in range is accepted: it writes the call
  /// block, whose return label is numbered with the new counter, and makes
  /// the callee the current function.
  lemma EmitValueCall(st: Vm, w: Words, c: int, fname: string, lineNumber: nat)
    requires w.command == "call" && 0 <= c <= MAX_CONSTANT
    ensures EmitValue(st, w, c, fname, lineNumber)
         == Ok(Vm(st.counter + 41, w.arg1, st.out + CallBlock(w.arg1, c, st.counter + 41)))
  {
    assert CommandOf(w.command) == Call;
  }

  lemma AtoiZero()
    ensures Atoi("0") == 0
  {
    assert AllDigits("0") && DecimalValue("0") == 0;
  }

  /// `call Sys.init 0` is accepted and writes its call block.
  lemma SysInitCall(st: Vm)
    ensures Emit(st, Words("call", "Sys.init", "0"), "", 0)
         == Ok(Vm(st.counter + 41, "Sys.init", st.out + CallBlock("Sys.init", 0, st.counter + 41)))
  {
    AtoiZero();
    EmitValueCall(st, Words("call", "Sys.init", "0"), 0, "", 0);
  }

  /// The directory bootstrap: 4 instructions of `sys_init`, then the 41 of
  /// `call Sys.init 0`, whose return label is numbered 45.
  lemma BootstrapAligned(dname: string, foo: string)
    ensures var b := Bootstrap(dname, foo);
            Aligned(b) && b.counter == 45 && b.foo == "Sys.init"
            && Label(ReturnName("Sys.init", 45)) in b.out
  {
    var st := Vm(4, foo, SysInit(dname));
    SysInitCounts(dname);
    SysInitCall(st);
    var block := CallBlock("Sys.init", 0, 45);
    var v := Vm(45, "Sys.init", st.out + block);
    CallCount("Sys.init", 0, 45);
    InstructionsAppend(st.out, block);
    InstructionsAppend(v.out, [""]);
    OneLine("");
    assert block[|block| - 1] == Label(ReturnName("Sys.init", 45));
    assert (v.out + [""])[|v.out| - 1] == block[|block| - 1];
  }

  // ------------------------------------------------------------- rejection

  /// The 17 command names `write_command` accepts.
  const COMMAND_NAMES: set<string> :=
    {"push", "pop", "add", "sub", "neg", "eq", "gt", "lt", "and", "or", "not",
     "label", "goto", "if-goto", "call", "function", "return"}

  /// The 8 segment names `push` accepts; `pop` accepts all but "constant".
  const SEGMENT_NAMES: set<string> :=
    {"constant", "static", "temp", "pointer", "local", "argument", "this", "that"}

  lemma CommandNames(name: string)
    ensures CommandOf(name).Unknown? <==> name !in COMMAND_NAMES
  {
  }

  lemma SegmentNames(name: string)
    ensures SegmentOf(name).NoSegment? <==> name !in SEGMENT_NAMES
    ensures SegmentOf(name).Constant? <==> name == "constant"
  {
  }

  /// The three failures of `write_command`, checked in this order: the
  /// address, the command name, then the segment of a push or pop.
  lemma EmitValueRejects(st: Vm, w: Words, c: int, fname: string, lineNumber: nat)
    ensures EmitValue(st, w, c, fname, lineNumber) == Err("Address out of bounds")
            <==> c < 0 || c > MAX_CONSTANT
    ensures EmitValue(st, w, c, fname, lineNumber) == Err("Invalid command")
            <==> 0 <= c <= MAX_CONSTANT && w.command !in COMMAND_NAMES
    ensures EmitValue(st, w, c, fname, lineNumber) == Err("Invalid segment reference")
            <==> 0 <= c <= MAX_CONSTANT
                 && ((w.command == "push" && w.arg1 !in SEGMENT_NAMES)
                     || (w.command == "pop" && (w.arg1 !in SEGMENT_NAMES || w.arg1 == "constant")))
    ensures EmitValue(st, w, c, fname, lineNumber).Ok? || EmitValue(st, w, c, fname, lineNumber).Err?
  {
    CommandNames(w.command);
    SegmentNames(w.arg1);
  }

  /// `atoi` of a missing arg2 is 0, so a command without one passes the
  /// address check.
  lemma AtoiEmpty()
    ensures Atoi("") == 0
  {
  }

  lemma EmitRejects(st: Vm, w: Words, fname: string, lineNumber: nat)
    ensures Emit(st, w, fname, lineNumber) == Err("Address out of bounds")
            <==> Atoi(w.arg2) < 0 || Atoi(w.arg2) > MAX_CONSTANT
    ensures Emit(st, w, fname, lineNumber) == Err("Invalid command")
            <==> 0 <= Atoi(w.arg2) <= MAX_CONSTANT && w.command !in COMMAND_NAMES
    ensures Emit(st, w, fname, lineNumber) == Err("Invalid segment reference")
            <==> 0 <= Atoi(w.arg2) <= MAX_CONSTANT
                 && ((w.command == "push" && w.arg1 !in SEGMENT_NAMES)
                     || (w.command == "pop" && (w.arg1 !in SEGMENT_NAMES || w.arg1 == "constant")))
  {
    EmitValueRejects(st, w, Atoi(w.arg2), fname, lineNumber);
  }

  // ------------------------------------------------------------ label scope

  /// The current function after a command: the callee of a `call`, the
  /// function of a `function`, otherwise unchanged.
  lemma EmitValueScope(st: Vm, w: Words, c: int, fname: string, lineNumber: nat)
    requires EmitValue(st, w, c, fname, lineNumber).Ok?
    ensures EmitValue(st, w, c, fname, lineNumber).value.foo
            == if w.command == "call" || w.command == "function" then w.arg1 else st.foo
  {
  }

  /// `label`, `goto` and `if-goto` name `<foo>$<label>` in the current
  /// function; `label` writes nothing else and counts no instruction.
  lemma EmitValueLabels(st: Vm, w: Words, c: int, fname: string, lineNumber: nat)
    requires EmitValue(st, w, c, fname, lineNumber).Ok?
    ensures var v := EmitValue(st, w, c, fname, lineNumber).value;
            (w.command == "label" ==> v.out == st.out + [Label(st.foo + "$" + w.arg1)] && v.counter == st.counter)
            && (w.command == "goto" ==> |v.out| == |st.out| + 2 && v.out[|st.out|] == "\t@" + st.foo + "$" + w.arg1)
            && (w.command == "if-goto" ==> |v.out| == |st.out| + 5 && v.out[|st.out| + 3] == "\t@" + st.foo + "$" + w.arg1)
  {
  }

  /// `eq`, `gt` and `lt` define `<foo>$__<kind>_<line>__` and
  /// `<foo>$__cont_<line>__`.
  lemma EmitValueCompareLabels(st: Vm, w: Words, c: int, fname: string, lineNumber: nat)
    requires EmitValue(st, w, c, fname, lineNumber).Ok?
    requires w.command in {"eq", "gt", "lt"}
    ensures var v := EmitValue(st, w, c, fname, lineNumber).value;
            Label(CompareName(st.foo, w.command, lineNumber)) in v.out[|st.out|..]
            && Label(CompareName(st.foo, "cont", lineNumber)) in v.out[|st.out|..]
  {
    var kind := w.command;
    var v := EmitValue(st, w, c, fname, lineNumber).value;
    var jump := if kind == "eq" then "JEQ" else if kind == "gt" then "JGT" else "JLT";
    var block := CompareBlock(kind, jump, st.foo, lineNumber);
    assert v.out[|st.out|..] == block;
    assert block[13] == Label(CompareName(st.foo, kind, lineNumber));
    assert block[17] == Label(CompareName(st.foo, "cont", lineNumber));
  }

  /// Because `call` overwrites `foo_name`, a label right after a call is in
  /// the callee's scope.
  lemma LabelAfterCall(st: Vm, call: Words, mark: Words, fname: string, n1: nat, n2: nat)
    requires call.command == "call" && mark.command == "label"
    requires Emit(st, call, fname, n1).Ok?
    requires Emit(Emit(st, call, fname, n1).value, mark, fname, n2).Ok?
    ensures var v := Emit(Emit(st, call, fname, n1).value, mark, fname, n2).value;
            |v.out| > 0 && v.out[|v.out| - 1] == Label(call.arg1 + "$" + mark.arg1)
  {
    var v1 := Emit(st, call, fname, n1).value;
    EmitValueScope(st, call, Atoi(call.arg2), fname, n1);
    EmitValueLabels(v1, mark, Atoi(mark.arg2), fname, n2);
  }

  // ------------------------------------------------------ unique return labels

  lemma ConcatAt(x: string, d: string, k: int)
    ensures 0 <= k < |x| + |d| ==> (x + d)[k] == if k < |x| then x[k] else d[k - |x|]
  {
  }

  /// When two equal texts end in digit strings after a non-digit, the
  /// shorter digit string is as long as the other.
  lemma DigitTailLength(x1: string, d1: string, x2: string, d2: string)
    requires x1 != [] && !IsDigit(x1[|x1| - 1]) && AllDigits(d1)
    requires AllDigits(d2) && x1 + d1 == x2 + d2 && |d1| <= |d2|
    ensures |d1| == |d2|
  {
    if |d1| < |d2| {
      ConcatAt(x1, d1, |x1| - 1);
      ConcatAt(x2, d2, |x1| - 1);
      assert false;
    }
  }

  /// Two texts that end in digit strings after a non-digit have equal digit
  /// strings when they are equal.
  lemma DigitTail(x1: string, d1: string, x2: string, d2: string)
    requires x1 != [] && !IsDigit(x1[|x1| - 1]) && AllDigits(d1)
    requires x2 != [] && !IsDigit(x2[|x2| - 1]) && AllDigits(d2)
    requires x1 + d1 == x2 + d2
    ensures d1 == d2
  {
    if |d1| <= |d2| {
      DigitTailLength(x1, d1, x2, d2);
    } else {
      DigitTailLength(x2, d2, x1, d1);
    }
    var s := x1 + d1;
    assert d1 == s[|x1|..];
    assert d2 == s[|x2|..];
  }

  /// A return label determines its counter modulo 2^32, whatever the callees.
  lemma ReturnNameCounter(a: string, m: nat, b: string, n: nat)
    requires ReturnName(a, m) == ReturnName(b, n)
    ensures m % WORD == n % WORD
  {
    var x1, x2 := a + "$__return_", b + "$__return_";
    var d1, d2 := Num(m % WORD), Num(n % WORD);
    assert ReturnName(a, m) == (x1 + d1) + "__";
    assert ReturnName(b, n) == (x2 + d2) + "__";
    var s := ReturnName(a, m);
    assert x1 + d1 == s[..|s| - 2] == x2 + d2;
    DigitTail(x1, d1, x2, d2);
  }

  /// `Labelled(out, p)`: `out` defines the return label of `p` at ROM address
  /// `p.1`, that is, after exactly `p.1` instructions.
  ghost predicate Labelled(out: seq<string>, p: (string, nat))
  {
    exists j :: 0 <= j < |out| && out[j] == Label(ReturnName(p.0, p.1)) && Instructions(out[..j]) == p.1
  }

  /// The return points (callee, counter) that the accepted calls of
  /// `lines[i..]` label, in order.
  function ReturnPoints(st: Vm, fname: string, lines: seq<string>, i: nat): seq<(string, nat)>
    requires i <= |lines|
    decreases |lines| - i
  {
    if i == |lines| then []
    else
      match LineStep(st, fname, lines[i], i + 1)
      case Stop(_, _) => []
      case Next(next) =>
        var w := SplitLine(lines[i]);
        (if w.command == "call" then [(w.arg1, next.counter)] else []) + ReturnPoints(next, fname, lines, i + 1)
  }

  /// One line only appends to the output.
  lemma LineStepExtends(st: Vm, fname: string, line: string, lineNumber: nat)
    ensures var v := LineStep(st, fname, line, lineNumber).vm;
            |st.out| <= |v.out| && v.out[..|st.out|] == st.out
  {
    var w := SplitLine(line);
    if w.command != "" {
      var st' := st.(out := st.out + [Comment(st.counter, w)]);
      var c := Atoi(w.arg2);
      if EmitValue(st', w, c, fname, lineNumber).Ok? {
        var v := EmitValue(st', w, c, fname, lineNumber).value;
        assert v.out[..|st.out|] == st'.out[..|st.out|] == st.out;
      }
    }
  }

  /// A call block jumps to the callee and then labels its own return
  /// point, a label that carries the counter.
  lemma CallBlockJumpsToCallee(callee: string, c: nat, counter: nat)
    ensures var b := CallBlock(callee, c, counter);
            |b| >= 3 && b[|b| - 3] == "\t@" + callee && b[|b| - 2] == "\t0;JMP"
            && b[|b| - 1] == Label(ReturnName(callee, counter))
  {
  }

  /// Two calls whose counters differ below `WORD` label different return
  /// points, even when they call the same function.
  lemma ReturnNamesDiffer(callee: string, m: nat, n: nat)
    requires m % WORD != n % WORD
    ensures ReturnName(callee, m) != ReturnName(callee, n)
  {
    var p := callee + "$__return_";
    var x, y := Num(m % WORD), Num(n % WORD);
    assert DecimalValue(x) != DecimalValue(y);
    if |x| == |y| {
      assert ReturnName(callee, m)[|p|..|p| + |x|] == x;
      assert ReturnName(callee, n)[|p|..|p| + |y|] == y;
    }
  }

  /// An accepted call labels its return point right after its block.
  lemma EmitValueCallLabelled(st: Vm, w: Words, c: int, fname: string, lineNumber: nat)
    requires Aligned(st) && w.command == "call" && 0 <= c <= MAX_CONSTANT
    ensures var v := EmitValue(st, w, c, fname, lineNumber).value;
            v.counter == st.counter + 41 && Labelled(v.out, (w.arg1, v.counter))
  {
    EmitValueCall(st, w, c, fname, lineNumber);
    var counter := st.counter + 41;
    var block := CallBlock(w.arg1, c, counter);
    var out := st.out + block;
    CallCount(w.arg1, c, counter);
    InstructionsAppend(st.out, block);
    var j := |out| - 1;
    assert out[j] == Label(ReturnName(w.arg1, counter));
    assert out == out[..j] + [out[j]];
    InstructionsAppend(out[..j], [out[j]]);
    OneLine(out[j]);
  }

  lemma LineStepCall(st: Vm, fname: string, line: string, lineNumber: nat)
    requires Aligned(st) && SplitLine(line).command == "call"
    requires LineStep(st, fname, line, lineNumber).Next?
    ensures var v := LineStep(st, fname, line, lineNumber).vm;
            v.counter == st.counter + 41 && Labelled(v.out, (SplitLine(line).arg1, v.counter))
  {
    var w := SplitLine(line);
    var st' := st.(out := st.out + [Comment(st.counter, w)]);
    CommentCounts(st, w);
    var c := Atoi(w.arg2);
    EmitValueRejects(st', w, c, fname, lineNumber);
    EmitValueCallLabelled(st', w, c, fname, lineNumber);
  }

  lemma LabelledExtends(out: seq<string>, more: seq<string>, p: (string, nat))
    requires |out| <= |more| && more[..|out|] == out && Labelled(out, p)
    ensures Labelled(more, p)
  {
    var j :| 0 <= j < |out| && out[j] == Label(ReturnName(p.0, p.1)) && Instructions(out[..j]) == p.1;
    assert more[j] == out[j];
    assert more[..j] == out[..j];
  }

  /// The loop of `parse_file` only appends to the output.
  lemma {:induction false} LinesExtends(st: Vm, fname: string, lines: seq<string>, i: nat)
    requires i <= |lines|
    ensures var v := Lines(st, fname, lines, i).0;
            |st.out| <= |v.out| && v.out[..|st.out|] == st.out
    decreases |lines| - i
  {
    if i < |lines| {
      LineStepExtends(st, fname, lines[i], i + 1);
      var step := LineStep(st, fname, lines[i], i + 1);
      if step.Next? {
        LinesExtends(step.vm, fname, lines, i + 1);
        var v := Lines(step.vm, fname, lines, i + 1).0;
        assert v.out[..|st.out|] == step.vm.out[..|st.out|];
      }
    }
  }

  /// `r`'s counters strictly increase, all in `(lo, hi]`.
  ghost predicate Increasing(r: seq<(string, nat)>, lo: nat, hi: nat)
  {
    (forall k :: 0 <= k < |r| ==> lo < r[k].1 <= hi)
    && (forall j, k :: 0 <= j < k < |r| ==> r[j].1 < r[k].1)
  }

  lemma IncreasingCons(head: seq<(string, nat)>, rest: seq<(string, nat)>, lo: nat, mid: nat, hi: nat)
    requires Increasing(rest, mid, hi) && lo <= mid
    requires head == [] || (|head| == 1 && head[0].1 == mid && lo < mid <= hi)
    ensures Increasing(head + rest, lo, hi)
  {
  }

  /// The counters of the return points strictly increase, all above the
  /// starting counter and at most the final one.
  lemma {:induction false} ReturnPointsIncrease(st: Vm, fname: string, lines: seq<string>, i: nat)
    requires i <= |lines| && Aligned(st)
    ensures Increasing(ReturnPoints(st, fname, lines, i), st.counter, Lines(st, fname, lines, i).0.counter)
    decreases |lines| - i
  {
    if i < |lines| {
      LineStepAligned(st, fname, lines[i], i + 1);
      var step := LineStep(st, fname, lines[i], i + 1);
      if step.Next? {
        var next := step.vm;
        var w := SplitLine(lines[i]);
        var rest := ReturnPoints(next, fname, lines, i + 1);
        var head := if w.command == "call" then [(w.arg1, next.counter)] else [];
        assert ReturnPoints(st, fname, lines, i) == head + rest;
        assert Lines(st, fname, lines, i) == Lines(next, fname, lines, i + 1);
        ReturnPointsIncrease(next, fname, lines, i + 1);
        LinesAligned(next, fname, lines, i + 1);
        if w.command == "call" {
          LineStepCall(st, fname, lines[i], i + 1);
        }
        IncreasingCons(head, rest, st.counter, next.counter, Lines(next, fname, lines, i + 1).0.counter);
      }
    }
  }

  /// Every return point the loop of `parse_file` labels is defined in its
  /// output at the address of its counter.
  lemma {:induction false} ReturnPointsLabelled(st: Vm, fname: string, lines: seq<string>, i: nat)
    requires i <= |lines| && Aligned(st)
    ensures forall p :: p in ReturnPoints(st, fname, lines, i) ==> Labelled(Lines(st, fname, lines, i).0.out, p)
    decreases |lines| - i
  {
    if i < |lines| {
      LineStepAligned(st, fname, lines[i], i + 1);
      var step := LineStep(st, fname, lines[i], i + 1);
      if step.Next? {
        var next := step.vm;
        var w := SplitLine(lines[i]);
        var rest := ReturnPoints(next, fname, lines, i + 1);
        var head := if w.command == "call" then [(w.arg1, next.counter)] else [];
        var out := Lines(next, fname, lines, i + 1).0.out;
        assert ReturnPoints(st, fname, lines, i) == head + rest;
        assert Lines(st, fname, lines, i).0.out == out;
        ReturnPointsLabelled(next, fname, lines, i + 1);
        if w.command == "call" {
          LineStepCall(st, fname, lines[i], i + 1);
          LinesExtends(next, fname, lines, i + 1);
          LabelledExtends(next.out, out, (w.arg1, next.counter));
        }
      }
    }
  }

  /// Return points with strictly increasing counters below 2^32 have
  /// pairwise distinct labels.
  lemma IncreasingDistinct(r: seq<(string, nat)>, lo: nat, hi: nat)
    requires Increasing(r, lo, hi) && hi < WORD
    ensures forall j, k :: 0 <= j < k < |r| ==> ReturnName(r[j].0, r[j].1) != ReturnName(r[k].0, r[k].1)
  {
    forall j, k | 0 <= j < k < |r|
      ensures ReturnName(r[j].0, r[j].1) != ReturnName(r[k].0, r[k].1)
    {
      if ReturnName(r[j].0, r[j].1) == ReturnName(r[k].0, r[k].1) {
        ReturnNameCounter(r[j].0, r[j].1, r[k].0, r[k].1);
      }
    }
  }

  /// The return labels of a file are defined at their counters and are
  /// pairwise distinct as long as the counter stays below 2^32 (beyond it
  /// `%u` would repeat a number).
  lemma ReturnLabelsDistinct(st: Vm, fname: string, lines: seq<string>)
    requires Aligned(st) && Lines(st, fname, lines, 0).0.counter < WORD
    ensures var r := ReturnPoints(st, fname, lines, 0);
            (forall j, k :: 0 <= j < k < |r| ==> ReturnName(r[j].0, r[j].1) != ReturnName(r[k].0, r[k].1))
            && (forall p :: p in r ==> Labelled(Lines(st, fname, lines, 0).0.out, p))
  {
    ReturnPointsIncrease(st, fname, lines, 0);
    ReturnPointsLabelled(st, fname, lines, 0);
    IncreasingDistinct(ReturnPoints(st, fname, lines, 0), st.counter, Lines(st, fname, lines, 0).0.counter);
  }

  // ------------------------------------------------------ the first failure

  /// `parse_file` stops at the first rejected line: whatever follows it is
  /// never read.
  lemma {:induction false} StopsAtFailure(st: Vm, fname: string, lines: seq<string>, more: seq<string>, i: nat)
    requires i <= |lines| && Lines(st, fname, lines, i).1.Some?
    ensures Lines(st, fname, lines + more, i) == Lines(st, fname, lines, i)
    decreases |lines| - i
  {
    assert (lines + more)[i] == lines[i];
    var step := LineStep(st, fname, lines[i], i + 1);
    if step.Next? {
      StopsAtFailure(step.vm, fname, lines, more, i + 1);
    }
  }

  /// The line holds a word, so `parse_file` writes it.
  predicate HasCommand(line: string) { SplitLine(line).command != "" }

  /// A line that stops the file has a word and fails with one of the three
  /// messages, under its own line number.
  lemma LineStepStop(st: Vm, fname: string, line: string, lineNumber: nat)
    requires LineStep(st, fname, line, lineNumber).Stop?
    ensures var f := LineStep(st, fname, line, lineNumber).failure;
            f.lineNumber == lineNumber && HasCommand(line)
            && f.message in {"Address out of bounds", "Invalid command", "Invalid segment reference"}
  {
    var w := SplitLine(line);
    var st' := st.(out := st.out + [Comment(st.counter, w)]);
    EmitValueRejects(st', w, Atoi(w.arg2), fname, lineNumber);
  }

  /// The failure reported is that of a line of the file, with one of the
  /// three messages.
  lemma {:induction false} FailureMessage(st: Vm, fname: string, lines: seq<string>, i: nat)
    requires i <= |lines| && Lines(st, fname, lines, i).1.Some?
    ensures var f := Lines(st, fname, lines, i).1.value;
            i < f.lineNumber <= |lines|
            && f.message in {"Address out of bounds", "Invalid command", "Invalid segment reference"}
    decreases |lines| - i
  {
    var step := LineStep(st, fname, lines[i], i + 1);
    if step.Next? {
      assert Lines(st, fname, lines, i) == Lines(step.vm, fname, lines, i + 1);
      FailureMessage(step.vm, fname, lines, i + 1);
    } else {
      assert Lines(st, fname, lines, i).1 == Some(step.failure);
      LineStepStop(st, fname, lines[i], i + 1);
    }
  }
}

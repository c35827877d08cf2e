/// What src/VMTranslator.c writes: its comparison labels depend on the line
/// number alone, every call in a function shares one return label and jumps
/// back into that function, and an echoed line that does not end in a
/// newline runs into the first instruction of its block.
module VmSrcProps {
  import opened CLib
  import opened VmWords
  import Vm8
  import Vm8Props
  import opened VmSrc

  // ----------------------------------------------------------- file text

  lemma {:induction false} TextAppend(a: seq<string>, b: seq<string>)
    ensures Text(a + b) == Text(a) + Text(b)
    decreases |b|
  {
    if b == [] {
      assert a + b == a;
    } else {
      var b' := b[..|b| - 1];
      assert (a + b)[..|a + b| - 1] == a + b';
      assert (a + b)[|a + b| - 1] == b[|b| - 1];
      TextAppend(a, b');
    }
  }

  /// The text of a block starts with its first line.
  lemma TextFirst(lines: seq<string>)
    requires lines != []
    ensures Text(lines) == lines[0] + "\n" + Text(lines[1..])
  {
    assert lines == [lines[0]] + lines[1..];
    TextAppend([lines[0]], lines[1..]);
    assert [lines[0]][..0] == [];
  }

  predicate EndsWith(s: string, t: string) { |t| <= |s| && s[|s| - |t|..] == t }

  /// The text of a block ends with its last line.
  lemma TextLast(lines: seq<string>)
    requires lines != []
    ensures EndsWith(Text(lines), lines[|lines| - 1] + "\n")
  {
    var p, l := lines[..|lines| - 1], lines[|lines| - 1];
    assert lines == p + [l];
    TextSnoc(p, l);
    EndsWithTail(Text(p), l + "\n");
  }

  lemma TextSnoc(p: seq<string>, l: string)
    ensures Text(p + [l]) == Text(p) + (l + "\n")
  {
    assert (p + [l])[..|p|] == p;
    assert Text(p) + l + "\n" == Text(p) + (l + "\n");
  }

  lemma EndsWithTail(s: string, t: string)
    ensures EndsWith(s + t, t)
  {
    assert (s + t)[|s|..] == t;
  }

  /// The text of a block ends with its last three lines.
  lemma TextLastThree(p: seq<string>, a: string, b: string, l: string)
    ensures Text(p + [a, b, l]) == Text(p) + (a + "\n" + b + "\n" + l + "\n")
  {
    var q := p + [a, b, l];
    assert q[..|q| - 1] == p + [a, b];
    assert (p + [a, b])[..|p| + 1] == p + [a];
    assert (p + [a])[..|p|] == p;
    assert Text(q) == Text(p + [a, b]) + l + "\n";
    assert Text(p + [a, b]) == Text(p + [a]) + b + "\n";
    assert Text(p + [a]) == Text(p) + a + "\n";
  }

  lemma EndsWithAppend(s: string, x: string, t: string)
    requires EndsWith(x, t)
    ensures EndsWith(s + x, t)
  {
    assert (s + x)[|s + x| - |t|..] == x[|x| - |t|..];
  }

  // ------------------------------------------------------------- rejection

  /// The same three failures as in 8/VMTranslator.c, in the same order.
  lemma EmitValueRejects(st: Src, w: Words, c: int, fname: string, lineNumber: nat)
    ensures EmitValue(st, w, c, fname, lineNumber) == Err("Address out of bounds")
            <==> c < 0 || c > Vm8.MAX_CONSTANT
    ensures EmitValue(st, w, c, fname, lineNumber) == Err("Invalid command")
            <==> 0 <= c <= Vm8.MAX_CONSTANT && w.command !in Vm8Props.COMMAND_NAMES
    ensures EmitValue(st, w, c, fname, lineNumber) == Err("Invalid segment reference")
            <==> 0 <= c <= Vm8.MAX_CONSTANT
                 && ((w.command == "push" && w.arg1 !in Vm8Props.SEGMENT_NAMES)
                     || (w.command == "pop" && (w.arg1 !in Vm8Props.SEGMENT_NAMES || w.arg1 == "constant")))
  {
    Vm8Props.CommandNames(w.command);
    Vm8Props.SegmentNames(w.arg1);
  }

  lemma EmitRejects(st: Src, w: Words, fname: string, lineNumber: nat)
    ensures Emit(st, w, fname, lineNumber) == Err("Address out of bounds")
            <==> Atoi(w.arg2) < 0 || Atoi(w.arg2) > Vm8.MAX_CONSTANT
    ensures Emit(st, w, fname, lineNumber) == Err("Invalid command")
            <==> 0 <= Atoi(w.arg2) <= Vm8.MAX_CONSTANT && w.command !in Vm8Props.COMMAND_NAMES
    ensures Emit(st, w, fname, lineNumber) == Err("Invalid segment reference")
            <==> 0 <= Atoi(w.arg2) <= Vm8.MAX_CONSTANT
                 && ((w.command == "push" && w.arg1 !in Vm8Props.SEGMENT_NAMES)
                     || (w.command == "pop" && (w.arg1 !in Vm8Props.SEGMENT_NAMES || w.arg1 == "constant")))
  {
    EmitValueRejects(st, w, Atoi(w.arg2), fname, lineNumber);
  }

  // ------------------------------------------------------------------ scope

  /// Only `function` changes the current function; `call` does not.
  lemma EmitValueScope(st: Src, w: Words, c: int, fname: string, lineNumber: nat)
    requires EmitValue(st, w, c, fname, lineNumber).Ok?
    ensures EmitValue(st, w, c, fname, lineNumber).value.foo == if w.command == "function" then w.arg1 else st.foo
  {
  }

  /// An accepted command only appends to the text.
  lemma EmitValueAppends(st: Src, w: Words, c: int, fname: string, lineNumber: nat)
    requires EmitValue(st, w, c, fname, lineNumber).Ok?
    ensures var v := EmitValue(st, w, c, fname, lineNumber).value;
            |st.text| <= |v.text| && v.text[..|st.text|] == st.text
  {
  }

  /// A label after a call is still in the caller's scope.
  lemma LabelAfterCall(st: Src, call: Words, mark: Words, fname: string, n1: nat, n2: nat)
    requires call.command == "call" && mark.command == "label"
    requires Emit(st, call, fname, n1).Ok?
    requires Emit(Emit(st, call, fname, n1).value, mark, fname, n2).Ok?
    ensures var v := Emit(Emit(st, call, fname, n1).value, mark, fname, n2).value;
            EndsWith(v.text, Vm8.Label(st.foo + "$" + mark.arg1) + "\n")
  {
    var v1 := Emit(st, call, fname, n1).value;
    EmitValueScope(st, call, Atoi(call.arg2), fname, n1);
    LabelEnds(v1, mark, Atoi(mark.arg2), fname, n2);
  }

  /// A label is written in the scope of the current function.
  lemma LabelEnds(st: Src, mark: Words, c: int, fname: string, lineNumber: nat)
    requires mark.command == "label" && EmitValue(st, mark, c, fname, lineNumber).Ok?
    ensures EmitValue(st, mark, c, fname, lineNumber)
         == Ok(Src(st.foo, st.text + (Vm8.Label(st.foo + "$" + mark.arg1) + "\n")))
    ensures EndsWith(EmitValue(st, mark, c, fname, lineNumber).value.text, Vm8.Label(st.foo + "$" + mark.arg1) + "\n")
  {
    assert Vm8.CommandOf(mark.command) == Vm8.LabelCommand;
    var t := Vm8.Label(st.foo + "$" + mark.arg1) + "\n";
    assert Text([Vm8.Label(st.foo + "$" + mark.arg1)]) == t by {
      assert [Vm8.Label(st.foo + "$" + mark.arg1)][..0] == [];
    }
    assert (st.text + t)[|st.text|..] == t;
  }

  // ------------------------------------------------------------ comparisons

  /// A comparison writes the same text whatever the current function and
  /// the file: its labels depend on the line number alone, so two files of
  /// a directory with a comparison on the same line define the same labels.
  lemma CompareIgnoresScope(st1: Src, st2: Src, w: Words, c: int, f1: string, f2: string, lineNumber: nat)
    requires w.command in {"eq", "gt", "lt"}
    requires EmitValue(st1, w, c, f1, lineNumber).Ok?
    ensures EmitValue(st2, w, c, f2, lineNumber).Ok?
    ensures EmitValue(st1, w, c, f1, lineNumber).value.text[|st1.text|..]
         == EmitValue(st2, w, c, f2, lineNumber).value.text[|st2.text|..]
  {
  }

  /// The labels of a comparison: `EQ_<line>`, `GT_<line>` or `LT_<line>`,
  /// and `CONT_<line>`.
  lemma CompareLabels(kind: string, jump: string, lineNumber: nat)
    ensures var block := CompareLines(kind, jump, lineNumber);
            Vm8.Label(kind + "_" + Vm8.Num(lineNumber)) in block
            && Vm8.Label("CONT_" + Vm8.Num(lineNumber)) in block
  {
    var block := CompareLines(kind, jump, lineNumber);
    assert block[13] == Vm8.Label(kind + "_" + Vm8.Num(lineNumber));
    assert block[17] == Vm8.Label("CONT_" + Vm8.Num(lineNumber));
  }

  // ------------------------------------------------------------------ calls

  /// A call writes the same text whatever function it names: the callee
  /// never appears.
  lemma CallIgnoresCallee(st: Src, w1: Words, w2: Words, c: int, fname: string, lineNumber: nat)
    requires w1.command == "call" && w2.command == "call" && w1.arg2 == w2.arg2
    requires EmitValue(st, w1, c, fname, lineNumber).Ok?
    ensures EmitValue(st, w1, c, fname, lineNumber) == EmitValue(st, w2, c, fname, lineNumber)
  {
    assert Vm8.CommandOf(w1.command) == Vm8.Call && Vm8.CommandOf(w2.command) == Vm8.Call;
  }

  /// A call inside `foo` jumps to `foo` and then defines `foo`'s one return
  /// label, so two calls in the same function define the same label.
  lemma CallReturnsToCaller(st: Src, w: Words, c: int, fname: string, lineNumber: nat)
    requires w.command == "call" && EmitValue(st, w, c, fname, lineNumber).Ok?
    ensures var v := EmitValue(st, w, c, fname, lineNumber).value;
            v.foo == st.foo
            && EndsWith(v.text, "\t@" + st.foo + "\n" + "\t0;JMP\t\t// goto FOO\n" + Vm8.Label(ReturnLabel(st.foo)) + "\n")
  {
    assert Vm8.CommandOf(w.command) == Vm8.Call;
    CallEnds(st.foo, c);
    EndsWithAppend(st.text, Text(CallLines(st.foo, c)),
                   "\t@" + st.foo + "\n" + "\t0;JMP\t\t// goto FOO\n" + Vm8.Label(ReturnLabel(st.foo)) + "\n");
  }

  lemma CallEnds(foo: string, c: nat)
    ensures EndsWith(Text(CallLines(foo, c)), "\t@" + foo + "\n" + "\t0;JMP\t\t// goto FOO\n" + Vm8.Label(ReturnLabel(foo)) + "\n")
  {
    var block := CallLines(foo, c);
    var n := |block|;
    var p := block[..n - 3];
    assert block == p + [block[n - 3], block[n - 2], block[n - 1]];
    assert block[n - 3] == "\t@" + foo;
    assert block[n - 2] == "\t0;JMP\t\t// goto FOO";
    TextLastThree(p, block[n - 3], block[n - 2], block[n - 1]);
    var t := "\t@" + foo + "\n" + "\t0;JMP\t\t// goto FOO\n" + Vm8.Label(ReturnLabel(foo)) + "\n";
    assert (Text(p) + t)[|Text(p)|..] == t;
  }

  // -------------------------------------------------------------- the echo

  /// The newline the split writes comes only with fewer than three words.
  lemma {:induction false} AppendedShort(t: string, p: nat, cur: string, done: seq<string>)
    requires p <= |t| && |done| < 3
    ensures Scan(t, p, cur, done).appended ==> |Scan(t, p, cur, done).words| < 3
    decreases |t| - p
  {
    if p == |t| || EndsWord(t[p]) || |cur| == WORD_LIMIT {
      if cur != [] {
        var done' := done + [cur];
        if |done'| < 3 && p < |t| && t[p] != '/' {
          AppendedShort(t, p + 1, [], done');
        }
      } else if p < |t| && t[p] != '/' {
        AppendedShort(t, p + 1, [], done);
      }
    } else {
      AppendedShort(t, p + 1, cur + [t[p]], done);
    }
  }

  /// A line with a third word is echoed exactly as read: no newline is
  /// added.
  lemma ThirdWordEcho(line: string)
    requires SplitLine(line).arg2 != ""
    ensures Echo(line) == "// " + CString(line) && SplitLine(line).command != ""
  {
    var split := Scan(CString(line), 0, [], []);
    AppendedShort(CString(line), 0, [], []);
    ScanWords(CString(line), 0, [], []);
    assert |split.words| > 2;
    assert split.words[0] in split.words;
    assert GoodWord(split.words[0]);
    assert |SplitLine(line).command| > 0;
  }

  /// Every block starts with an instruction "\t..." or a label "(...)".
  lemma BlockStart(command: Vm8.Command, segment: Vm8.Segment, w: Words, c: nat, foo: string, fname: string,
                   lineNumber: nat)
    requires !command.Unknown? && Vm8.ValidSegment(command, segment)
    ensures var block := SrcBlock(command, segment, w, c, foo, fname, lineNumber);
            block != [] && block[0] != [] && block[0][0] in {'\t', '('}
  {
  }

  /// An accepted command writes a block that starts with '\t' or '('.
  lemma EmitValueStart(st: Src, w: Words, c: int, fname: string, lineNumber: nat)
    requires EmitValue(st, w, c, fname, lineNumber).Ok?
    ensures var v := EmitValue(st, w, c, fname, lineNumber).value;
            |st.text| < |v.text| && v.text[..|st.text|] == st.text && v.text[|st.text|] in {'\t', '('}
  {
    var command, segment := Vm8.CommandOf(w.command), Vm8.SegmentOf(w.arg1);
    var block := SrcBlock(command, segment, w, c, st.foo, fname, lineNumber);
    BlockStart(command, segment, w, c, st.foo, fname, lineNumber);
    TextFirst(block);
  }

  /// So an echoed line without a newline, the last line of a file that does
  /// not end in one, runs into the first line of its block: the "// "
  /// comment swallows the command's first instruction.
  lemma EchoRunsOn(st: Src, fname: string, line: string, lineNumber: nat)
    requires SplitLine(line).arg2 != ""
    requires LineStep(st, fname, line, lineNumber).Next?
    ensures var v := LineStep(st, fname, line, lineNumber).src;
            var e := st.text + "// " + CString(line);
            |e| < |v.text| && v.text[..|e|] == e && v.text[|e|] in {'\t', '('}
  {
    ThirdWordEcho(line);
    var w := SplitLine(line);
    var st' := st.(text := st.text + Echo(line));
    assert LineStep(st, fname, line, lineNumber) == match Emit(st', w, fname, lineNumber)
      case Ok(next) => Next(next)
      case Err(m) => Stop(st', Vm8.Failure(lineNumber, m));
    EmitValueStart(st', w, Atoi(w.arg2), fname, lineNumber);
    assert st'.text == st.text + "// " + CString(line);
  }

  // ------------------------------------------------------------- the file

  /// A line only appends to the text.
  lemma LineStepGrows(st: Src, fname: string, line: string, lineNumber: nat)
    ensures var v := LineStep(st, fname, line, lineNumber).src;
            |st.text| <= |v.text| && v.text[..|st.text|] == st.text
  {
    var w := SplitLine(line);
    if w.command != "" {
      var st' := st.(text := st.text + Echo(line));
      assert st'.text[..|st.text|] == st.text;
      if Emit(st', w, fname, lineNumber).Ok? {
        EmitValueAppends(st', w, Atoi(w.arg2), fname, lineNumber);
        var v := Emit(st', w, fname, lineNumber).value;
        assert v.text[..|st.text|] == v.text[..|st'.text|][..|st.text|];
      }
    }
  }

  /// The text of a file, up to a failure, only grows: what was written
  /// before is never changed.
  lemma {:induction false} LinesGrow(st: Src, fname: string, lines: seq<string>, i: nat)
    requires i <= |lines|
    ensures var v := Lines(st, fname, lines, i).0;
            |st.text| <= |v.text| && v.text[..|st.text|] == st.text
    decreases |lines| - i
  {
    if i < |lines| {
      var step := LineStep(st, fname, lines[i], i + 1);
      LineStepGrows(st, fname, lines[i], i + 1);
      if step.Next? {
        assert Lines(st, fname, lines, i) == Lines(step.src, fname, lines, i + 1);
        LinesGrow(step.src, fname, lines, i + 1);
        var v := Lines(step.src, fname, lines, i + 1).0;
        assert v.text[..|st.text|] == v.text[..|step.src.text|][..|st.text|];
      }
    }
  }

  /// The text of a file starts with its heading.
  lemma ParseFileHeading(st: Src, fname: string, lines: seq<string>)
    ensures var v := ParseFile(st, fname, lines).0;
            var h := st.text + Heading(fname);
            |h| <= |v.text| && v.text[..|h|] == h
  {
    LinesGrow(st.(text := st.text + Heading(fname)), fname, lines, 0);
  }

  /// `parse_file` stops at the first rejected line.
  lemma {:induction false} StopsAtFailure(st: Src, fname: string, lines: seq<string>, more: seq<string>, i: nat)
    requires i <= |lines| && Lines(st, fname, lines, i).1.Some?
    ensures Lines(st, fname, lines + more, i) == Lines(st, fname, lines, i)
    decreases |lines| - i
  {
    assert (lines + more)[i] == lines[i];
    var step := LineStep(st, fname, lines[i], i + 1);
    if step.Next? {
      StopsAtFailure(step.src, fname, lines, more, i + 1);
    }
  }

  /// A line that stops the file has a word, has been echoed, and fails with
  /// one of the three messages under its own line number.
  lemma LineStepStop(st: Src, fname: string, line: string, lineNumber: nat)
    requires LineStep(st, fname, line, lineNumber).Stop?
    ensures var s := LineStep(st, fname, line, lineNumber);
            s.failure.lineNumber == lineNumber && Vm8Props.HasCommand(line)
            && s.src.text == st.text + Echo(line)
            && s.failure.message in {"Address out of bounds", "Invalid command", "Invalid segment reference"}
  {
    var w := SplitLine(line);
    var st' := st.(text := st.text + Echo(line));
    EmitValueRejects(st', w, Atoi(w.arg2), fname, lineNumber);
  }

  /// The failure reported is that of a line of the file, with one of the
  /// three messages.
  lemma {:induction false} FailureMessage(st: Src, fname: string, lines: seq<string>, i: nat)
    requires i <= |lines| && Lines(st, fname, lines, i).1.Some?
    ensures var f := Lines(st, fname, lines, i).1.value;
            i < f.lineNumber <= |lines|
            && f.message in {"Address out of bounds", "Invalid command", "Invalid segment reference"}
    decreases |lines| - i
  {
    var step := LineStep(st, fname, lines[i], i + 1);
    if step.Next? {
      assert Lines(st, fname, lines, i) == Lines(step.src, fname, lines, i + 1);
      FailureMessage(step.src, fname, lines, i + 1);
    } else {
      assert Lines(st, fname, lines, i).1 == Some(step.failure);
      LineStepStop(st, fname, lines[i], i + 1);
    }
  }

  /// The bootstrap sets SP to 256 and ends with a plain jump to Sys.init,
  /// pushing no frame.
  lemma SysInitJumps(dname: string)
    ensures EndsWith(SysInit(dname), "\t@Sys.init\n\t0;JMP\n")
  {
    var block := Vm8.Tab(["@256", "D=A", "@SP", "M=D", "@Sys.init", "0;JMP"]);
    var p := block[..4];
    assert block[4] == "\t" + "@Sys.init" == "\t@Sys.init";
    assert block[5] == "\t" + "0;JMP" == "\t0;JMP";
    assert block == p + [block[4], block[5]];
    var t := "\t@Sys.init" + "\n" + "\t0;JMP" + "\n";
    assert t == "\t@Sys.init\n\t0;JMP\n";
    TextLastTwo(p, "\t@Sys.init", "\t0;JMP");
    EndsWithTail(Text(p), t);
    EndsWithAppend("// " + dname + "\n\n" + "// Bootstrap Sys.init\n", Text(block), t);
  }

  /// The text of a block ends with its last two lines.
  lemma TextLastTwo(p: seq<string>, a: string, b: string)
    ensures Text(p + [a, b]) == Text(p) + (a + "\n" + b + "\n")
  {
    assert p + [a, b] == (p + [a]) + [b];
    TextSnoc(p + [a], b);
    TextSnoc(p, a);
    assert Text(p) + (a + "\n") + (b + "\n") == Text(p) + (a + "\n" + b + "\n");
  }
}

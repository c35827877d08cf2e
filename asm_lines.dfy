/// How the two passes of the Hack assemblers in 7/assembler.c and
/// src/assembler.c read one line: pass 1 classifies it as a label, an
/// instruction or nothing, pass 2 cuts it into an A-instruction symbol or the
/// dest/comp/jump fields of a C-instruction. Each is given once as a
/// declarative definition and once as the character loop of the source,
/// proved equal to it.
module AsmLines {
  import opened CLib

  predicate IsBlank(c: char) { c == ' ' || c == '\t' }

  /// The characters pass 1 accepts inside "( )".
  predicate IsLabelChar(c: char)
  {
    c == '_' || c == '.' || c == '$' || c == ':' || IsDigit(c) || IsAlpha(c)
  }

  /// The characters pass 1 accepts as the first one of an instruction.
  predicate IsInstrStart(c: char)
  {
    c == '@' || c == '0' || c == '1' || c == '-' || c == 'D' || c == 'A' || c == 'M' || c == '!'
  }

  /// The characters that end the scan of a line in pass 2.
  predicate IsStop(c: char) { c == '/' || c == '\r' || c == '\n' || c == '(' }

  /// The first position from `i` on that does not hold a blank (space or
  /// tab).
  function BlankEnd(s: string, i: nat): (n: nat)
    requires i <= |s|
    ensures i <= n <= |s| && (forall p :: i <= p < n ==> IsBlank(s[p]))
    ensures n < |s| ==> !IsBlank(s[n])
    decreases |s| - i
  {
    if i < |s| && IsBlank(s[i]) then BlankEnd(s, i + 1) else i
  }

  /// The first position from `i` on that does not hold a label character.
  function LabelEnd(s: string, i: nat): (n: nat)
    requires i <= |s|
    ensures i <= n <= |s| && (forall p :: i <= p < n ==> IsLabelChar(s[p]))
    ensures n < |s| ==> !IsLabelChar(s[n])
    decreases |s| - i
  {
    if i < |s| && IsLabelChar(s[i]) then LabelEnd(s, i + 1) else i
  }

  /// The first position from `i` on that ends a field of pass 2: a stop
  /// character or white space.
  function FieldEnd(s: string, i: nat): (n: nat)
    requires i <= |s|
    ensures i <= n <= |s| && (forall p :: i <= p < n ==> !IsStop(s[p]) && !IsSpace(s[p]))
    ensures n < |s| ==> IsStop(s[n]) || IsSpace(s[n])
    decreases |s| - i
  {
    if i < |s| && !IsStop(s[i]) && !IsSpace(s[i]) then FieldEnd(s, i + 1) else i
  }

  // ---------------------------------------------------------------- pass 1

  datatype LineKind = Blank | Label(symbol: string) | Instruction | Bad(msg: string)

  /// What pass 1 makes of a line. After the leading blanks: nothing for the
  /// end of the text, a line break or '/'; for '(' the label characters that
  /// follow, which must run up to a ')' or to the end of the text (an empty
  /// label is ignored); an instruction for one of `@ 0 1 - D A M !`; and an
  /// error for anything else.
  function Classify(line: string): LineKind
  {
    ClassifyText(CString(line))
  }

  /// `Classify` on the text up to the first NUL.
  function ClassifyText(t: string): LineKind
  {
    var k := BlankEnd(t, 0);
    if k == |t| || t[k] == '\r' || t[k] == '\n' || t[k] == '/' then Blank
    else if t[k] == '(' then
      var n := LabelEnd(t, k + 1);
      if n < |t| && t[n] != ')' then Bad("Invalid label")
      else if n == k + 1 then Blank
      else Label(t[k + 1..n])
    else if IsInstrStart(t[k]) then Instruction
    else Bad("Invalid instruction")
  }

  /// The scan of one line in pass 1 (7/assembler.c, src/assembler.c): the
  /// character loop runs over the `strlen(line)` characters before the NUL.
  method ClassifyLine(line: string) returns (kind: LineKind)
    ensures kind == Classify(line)
  {
    kind := ClassifyChars(CString(line));
  }

  /// The character loop of pass 1 over the text `t` of a line.
  method ClassifyChars(t: string) returns (kind: LineKind)
    ensures kind == ClassifyText(t)
  {
    ghost var k := BlankEnd(t, 0);
    var symbol: string := [];
    var isLabel := false;
    var isInstr := false;
    var i := 0;
    while i < |t|
      invariant i <= |t|
      invariant !isLabel ==> i <= k && symbol == [] && !isInstr
      invariant isLabel ==> k < i && t[k] == '(' && symbol == t[k + 1..i] && !isInstr
      invariant isLabel ==> forall p :: k + 1 <= p < i ==> IsLabelChar(t[p])
    {
      var c := t[i];
      if isLabel {
        if c == ')' {
          break;
        } else if IsLabelChar(c) {
          symbol := symbol + [c];
          i := i + 1;
          continue;
        }
        return Bad("Invalid label");
      }
      if c == '\r' || c == '\n' || c == '/' {
        break;
      }
      if c == ' ' || c == '\t' {
        i := i + 1;
        continue;
      }
      if c == '(' {
        isLabel := true;
        i := i + 1;
        continue;
      }
      if IsInstrStart(c) {
        isInstr := true;
        break;
      }
      return Bad("Invalid instruction");
    }
    if symbol != [] {
      kind := Label(symbol);
    } else if isInstr {
      kind := Instruction;
    } else {
      kind := Blank;
    }
  }

  /// A label definition "(SYM)" after optional blanks, with anything after
  /// the ')', is read as the label SYM.
  lemma ClassifyLabel(blanks: string, sym: string, tail: string)
    requires (forall i :: 0 <= i < |blanks| ==> IsBlank(blanks[i])) && '\0' !in sym
    requires sym != [] && forall i :: 0 <= i < |sym| ==> IsLabelChar(sym[i])
    ensures Classify(blanks + "(" + sym + ")" + tail) == Label(sym)
  {
    var w := blanks + "(" + sym + ")";
    assert '\0' !in blanks;
    assert '\0' !in w by { assert w == blanks + ("(" + (sym + ")")); }
    CStringPrefix(w, tail);
    LabelText(blanks, sym, CString(tail));
  }

  /// `ClassifyText` of a label line.
  lemma LabelText(blanks: string, sym: string, rest: string)
    requires forall i :: 0 <= i < |blanks| ==> IsBlank(blanks[i])
    requires sym != [] && forall i :: 0 <= i < |sym| ==> IsLabelChar(sym[i])
    ensures ClassifyText(blanks + "(" + sym + ")" + rest) == Label(sym)
  {
    var t := blanks + "(" + sym + ")" + rest;
    var n := |blanks|;
    var e := n + 1 + |sym|;
    assert t == blanks + ("(" + (sym + (")" + rest)));
    assert t[n] == '(' && t[e] == ')';
    assert forall p :: 0 <= p < n ==> t[p] == blanks[p];
    BlankEndAt(t, 0, n);
    assert forall p :: n + 1 <= p < e ==> t[p] == sym[p - n - 1];
    LabelEndAt(t, n + 1, e);
    assert t[n + 1..e] == sym;
  }

  lemma BlankEndAt(s: string, i: nat, n: nat)
    requires i <= n <= |s| && (forall p :: i <= p < n ==> IsBlank(s[p])) && (n < |s| ==> !IsBlank(s[n]))
    ensures BlankEnd(s, i) == n
  {
  }

  lemma LabelEndAt(s: string, i: nat, n: nat)
    requires i <= n <= |s| && (forall p :: i <= p < n ==> IsLabelChar(s[p])) && (n < |s| ==> !IsLabelChar(s[n]))
    ensures LabelEnd(s, i) == n
  {
  }

  lemma FieldEndAt(s: string, i: nat, n: nat)
    requires i <= n <= |s| && (forall p :: i <= p < n ==> !IsStop(s[p]) && !IsSpace(s[p]))
    requires n < |s| ==> IsStop(s[n]) || IsSpace(s[n])
    ensures FieldEnd(s, i) == n
  {
  }

  // ---------------------------------------------------------------- pass 2

  /// What pass 2 makes of a line: nothing, an A-instruction with the text
  /// after '@', or a C-instruction with its dest, comp and jump texts.
  datatype Code = NoCode | AIns(symbol: string) | CIns(dest: string, comp: string, jump: string)

  /// `buf[j] = c` on a zero-filled `char` buffer whose C string is `buf`.
  function Put(buf: string, j: nat, c: char): (r: string)
    requires j <= |buf|
    ensures |r| == if j < |buf| then |buf| else |buf| + 1
  {
    if j < |buf| then buf[j := c] else buf + [c]
  }

  /// The state of the scan through a C-instruction: the `token` buffer and
  /// its write index `j`, the `dest` and `comp` texts set so far, and whether
  /// a ';' was seen. At '=' and ';' the index goes back to 0 but the buffer
  /// keeps its characters.
  datatype CScan = CScan(token: string, j: nat, dest: string, comp: string, hasJump: bool)

  ghost predicate Sane(s: CScan) { s.j <= |s.token| }

  /// A single register named on the left of '=' is looked up as "@M", "@D"
  /// or "@A", apart from the comp codes "M", "D" and "A".
  function DestKey(token: string): string
  {
    if token == "M" || token == "D" || token == "A" then "@" + token else token
  }

  function CStep(s: CScan, c: char): (r: CScan)
    requires Sane(s)
    ensures Sane(r)
  {
    if c == '=' then s.(dest := DestKey(s.token), j := 0)
    else if c == ';' then s.(comp := s.token, j := 0, hasJump := true)
    else s.(token := Put(s.token, s.j, c), j := s.j + 1)
  }

  function CFold(s: CScan, cs: string): (r: CScan)
    requires Sane(s)
    ensures Sane(r)
  {
    if cs == [] then s else CStep(CFold(s, cs[..|cs| - 1]), cs[|cs| - 1])
  }

  /// The fields of a C-instruction whose text is `body`. Its first character
  /// always goes to the buffer; when the line ends, the buffer is the jump
  /// if a ';' was seen and the comp otherwise.
  function CFields(body: string): Code
    requires body != []
  {
    Finish(CFold(Start(body[0]), body[1..]))
  }

  function Start(c: char): CScan { CScan([c], 1, "", "", false) }

  function Finish(s: CScan): Code
  {
    if s.hasJump then CIns(s.dest, s.comp, s.token) else CIns(s.dest, s.token, "")
  }

  /// The declarative reading of a line in pass 2: the first character that is
  /// not a blank starts the instruction unless it is a stop character; the
  /// instruction runs to the next stop character or white space.
  function Decode(line: string): Code
  {
    DecodeText(CString(line))
  }

  /// `Decode` on the text up to the first NUL.
  function DecodeText(t: string): Code
  {
    var k := BlankEnd(t, 0);
    if k == |t| || IsStop(t[k]) then NoCode
    else
      var m := FieldEnd(t, k + 1);
      if t[k] == '@' then AIns(t[k + 1..m]) else CFields(t[k..m])
  }

  /// The `opcode` string of pass 2: unset, "0" or "111".
  datatype Opcode = Unset | AOpcode | COpcode

  /// The scan of one line in pass 2 (7/assembler.c, src/assembler.c): the
  /// character loop runs over the `strlen(line)` characters before the NUL.
  method DecodeLine(line: string) returns (code: Code)
    ensures code == Decode(line)
  {
    code := DecodeChars(CString(line));
  }

  /// The character loop of pass 2 over the text `t` of a line.
  method DecodeChars(t: string) returns (code: Code)
    ensures code == DecodeText(t)
  {
    ghost var k := BlankEnd(t, 0);
    ghost var m := if k < |t| then FieldEnd(t, k + 1) else k;
    var opcode := Unset;
    var aInstr := "";
    var token := "";
    var j: nat := 0;
    var dest := "";
    var comp := "";
    var hasJump := false;
    var i := 0;
    while i < |t|
      invariant i <= |t| && j <= |token|
      invariant opcode == Unset ==> i <= k && token == [] && j == 0
      invariant opcode == Unset ==> aInstr == [] && dest == [] && comp == [] && !hasJump
      invariant opcode != Unset ==> k < i <= m && !IsStop(t[k])
      invariant opcode == AOpcode ==> t[k] == '@' && aInstr == t[k + 1..i]
      invariant opcode == COpcode ==> t[k] != '@'
      invariant opcode == COpcode ==>
        CScan(token, j, dest, comp, hasJump) == CFold(Start(t[k]), t[k + 1..i])
    {
      var c := t[i];
      if c == '/' || c == '\r' || c == '\n' || c == '(' {
        break;
      }
      if opcode == Unset {
        if c == ' ' || c == '\t' {
          assert i < k by { assert IsBlank(t[i]); }
          i := i + 1;
          continue;
        }
        assert i == k by { assert !IsBlank(t[i]); }
        if c == '@' {
          opcode := AOpcode;
        } else {
          opcode := COpcode;
          token := Put(token, j, c);
          j := j + 1;
          assert t[k + 1..i + 1] == [] && CScan(token, j, dest, comp, hasJump) == Start(c);
        }
      } else {
        if IsSpace(c) {
          break;
        }
        assert i < m;
        if opcode == AOpcode {
          aInstr := aInstr + [c];
          assert aInstr == t[k + 1..i + 1];
        } else {
          token, j, dest, comp, hasJump := ScanC(token, j, dest, comp, hasJump, c);
          CFoldSnoc(Start(t[k]), t[k + 1..i], t[k + 1..i + 1]);
        }
      }
      i := i + 1;
    }
    if opcode == Unset {
      assert k == |t| || IsStop(t[k]);
      code := NoCode;
    } else {
      if opcode == AOpcode {
        DecodeEndA(t, k, i);
        code := AIns(aInstr);
      } else {
        DecodeEndC(t, k, i);
        CFieldsAfter(t, k, i);
        if hasJump {
          code := CIns(dest, comp, token);
        } else {
          code := CIns(dest, token, "");
        }
      }
    }
  }

  /// The C-instruction branch of the pass-2 loop for one character.
  method ScanC(token: string, j: nat, dest: string, comp: string, hasJump: bool, c: char)
      returns (token': string, j': nat, dest': string, comp': string, hasJump': bool)
    requires j <= |token|
    ensures CScan(token', j', dest', comp', hasJump') == CStep(CScan(token, j, dest, comp, hasJump), c)
  {
    token', j', dest', comp', hasJump' := token, j, dest, comp, hasJump;
    if c == '=' {
      dest' := DestKey(token);
      j' := 0;
    } else if c == ';' {
      comp' := token;
      j' := 0;
      hasJump' := true;
    } else {
      token' := Put(token, j, c);
      j' := j + 1;
    }
  }

  /// `DecodeText` of an A-instruction whose text ends at `m`.
  lemma DecodeEndA(t: string, k: nat, m: nat)
    requires k == BlankEnd(t, 0) < |t| && t[k] == '@' && m == FieldEnd(t, k + 1)
    ensures DecodeText(t) == AIns(t[k + 1..m])
  {
  }

  /// `DecodeText` of a C-instruction whose text ends at `m`.
  lemma DecodeEndC(t: string, k: nat, m: nat)
    requires k == BlankEnd(t, 0) < |t| && !IsStop(t[k]) && t[k] != '@' && m == FieldEnd(t, k + 1)
    ensures DecodeText(t) == CFields(t[k..m])
  {
  }

  /// The fields of `body` from the scan of what follows its first character.
  lemma CFieldsAfter(t: string, k: nat, m: nat)
    requires k < m <= |t|
    ensures CFields(t[k..m]) == Finish(CFold(Start(t[k]), t[k + 1..m]))
  {
    assert t[k..m][0] == t[k] && t[k..m][1..] == t[k + 1..m];
  }

  lemma CFoldSnoc(s: CScan, cs: string, cs': string)
    requires Sane(s) && cs' != [] && cs == cs'[..|cs'| - 1]
    ensures CFold(s, cs') == CStep(CFold(s, cs), cs'[|cs'| - 1])
  {
  }

  // ------------------------------------------- the fields of a C-instruction

  /// `seg` written into `buf` from index `j` on, as consecutive `Put`s do.
  function Written(buf: string, j: nat, seg: string): (r: string)
    requires j <= |buf|
    ensures |r| == if j + |seg| < |buf| then |buf| else j + |seg|
  {
    buf[..j] + seg + if j + |seg| < |buf| then buf[j + |seg|..] else []
  }

  /// The text a shorter field leaves in the buffer: the new characters,
  /// followed by whatever is left of the longer earlier field.
  function Overlay(earlier: string, s: string): string
  {
    Written(earlier, 0, s)
  }

  predicate NoSeparator(s: string) { '=' !in s && ';' !in s }

  lemma {:induction false} FoldSegment(s: CScan, seg: string)
    requires Sane(s) && NoSeparator(seg)
    ensures CFold(s, seg) == s.(token := Written(s.token, s.j, seg), j := s.j + |seg|)
  {
    if seg == [] {
      assert Written(s.token, s.j, seg) == s.token;
    } else {
      var init := seg[..|seg| - 1];
      var c := seg[|seg| - 1];
      assert c in seg;
      assert init + [c] == seg;
      assert NoSeparator(init) by {
        assert forall x :: x in init ==> x in seg;
      }
      FoldSegment(s, init);
      PutWritten(s.token, s.j, init, c);
    }
  }

  lemma PutWritten(buf: string, j: nat, seg: string, c: char)
    requires j <= |buf|
    ensures Put(Written(buf, j, seg), j + |seg|, c) == Written(buf, j, seg + [c])
  {
    var n := j + |seg|;
    if n + 1 < |buf| {
      assert buf[n..][1..] == buf[n + 1..];
      assert Written(buf, j, seg)[n := c] == buf[..j] + (seg + [c]) + buf[n + 1..];
    } else if n < |buf| {
      assert Written(buf, j, seg)[n := c] == buf[..j] + (seg + [c]);
    }
  }

  lemma {:induction false} FoldAppend(s: CScan, a: string, b: string)
    requires Sane(s)
    ensures CFold(s, a + b) == CFold(CFold(s, a), b)
  {
    if b == [] {
      assert a + b == a;
    } else {
      assert (a + b)[..|a + b| - 1] == a + b[..|b| - 1];
      FoldAppend(s, a, b[..|b| - 1]);
    }
  }

  /// The scan state once the first field `f` has been read.
  lemma FirstField(f: string)
    requires f != [] && NoSeparator(f[1..])
    ensures CFold(Start(f[0]), f[1..]) == CScan(f, |f|, "", "", false)
  {
    FoldSegment(Start(f[0]), f[1..]);
    assert [f[0]] + f[1..] == f;
  }

  /// A C-instruction without '=' or ';' is all comp.
  lemma CFieldsComp(c: string)
    requires c != [] && NoSeparator(c[1..])
    ensures CFields(c) == CIns("", c, "")
  {
    FirstField(c);
  }

  /// "d=c": the dest key of `d`, and a comp that keeps the tail of `d` when
  /// `c` is shorter than `d`.
  lemma CFieldsDest(d: string, c: string)
    requires d != [] && NoSeparator(d[1..]) && NoSeparator(c)
    ensures CFields(d + "=" + c) == CIns(DestKey(d), Overlay(d, c), "")
  {
    var body := d + "=" + c;
    assert body[0] == d[0] && body[1..] == d[1..] + "=" + c;
    FoldAppend(Start(d[0]), d[1..] + "=", c);
    FoldAppend(Start(d[0]), d[1..], "=");
    FirstField(d);
    FoldSegment(CScan(d, 0, DestKey(d), "", false), c);
  }

  /// "c;j": the comp `c`, and a jump that keeps the tail of `c` when `j` is
  /// shorter than `c`.
  lemma CFieldsJump(c: string, j: string)
    requires c != [] && NoSeparator(c[1..]) && NoSeparator(j)
    ensures CFields(c + ";" + j) == CIns("", c, Overlay(c, j))
  {
    var body := c + ";" + j;
    assert body[0] == c[0] && body[1..] == c[1..] + ";" + j;
    FoldAppend(Start(c[0]), c[1..] + ";", j);
    FoldAppend(Start(c[0]), c[1..], ";");
    FirstField(c);
    FoldSegment(CScan(c, 0, "", c, true), j);
  }

  /// "d=c;j", with both overlays.
  lemma CFieldsFull(d: string, c: string, j: string)
    requires d != [] && NoSeparator(d[1..]) && NoSeparator(c) && NoSeparator(j)
    ensures var comp := Overlay(d, c);
      CFields(d + "=" + c + ";" + j) == CIns(DestKey(d), comp, Overlay(comp, j))
  {
    var body := d + "=" + c + ";" + j;
    var comp := Overlay(d, c);
    assert body[0] == d[0] && body[1..] == d[1..] + "=" + c + ";" + j;
    FoldAppend(Start(d[0]), d[1..] + "=" + c + ";", j);
    FoldAppend(Start(d[0]), d[1..] + "=" + c, ";");
    FoldAppend(Start(d[0]), d[1..] + "=", c);
    FoldAppend(Start(d[0]), d[1..], "=");
    FirstField(d);
    FoldSegment(CScan(d, 0, DestKey(d), "", false), c);
    FoldSegment(CScan(comp, 0, DestKey(d), comp, true), j);
  }
  /// A line holding blanks, then an instruction `body`, then the end of the
  /// text, a stop character or white space, decodes to `body`'s fields.
  lemma DecodeInstruction(blanks: string, body: string, rest: string)
    requires forall i :: 0 <= i < |blanks| ==> IsBlank(blanks[i])
    requires body != [] && !IsBlank(body[0]) && !IsStop(body[0]) && '\0' !in body
    requires forall i :: 1 <= i < |body| ==> !IsStop(body[i]) && !IsSpace(body[i])
    requires rest == [] || IsStop(rest[0]) || IsSpace(rest[0]) || rest[0] == '\0'
    ensures Decode(blanks + body + rest) == if body[0] == '@' then AIns(body[1..]) else CFields(body)
  {
    assert '\0' !in blanks;
    assert '\0' !in blanks + body;
    CStringPrefix(blanks + body, rest);
    var r := CString(rest);
    assert r == [] || IsStop(r[0]) || IsSpace(r[0]) by {
      if rest != [] && rest[0] != '\0' {
        assert r == [rest[0]] + CString(rest[1..]);
      }
    }
    InstructionText(blanks, body, r);
  }

  /// `DecodeText` of an instruction line.
  lemma InstructionText(blanks: string, body: string, rest: string)
    requires forall i :: 0 <= i < |blanks| ==> IsBlank(blanks[i])
    requires body != [] && !IsBlank(body[0]) && !IsStop(body[0])
    requires forall i :: 1 <= i < |body| ==> !IsStop(body[i]) && !IsSpace(body[i])
    requires rest == [] || IsStop(rest[0]) || IsSpace(rest[0])
    ensures DecodeText(blanks + body + rest) == if body[0] == '@' then AIns(body[1..]) else CFields(body)
  {
    var t := blanks + body + rest;
    var k := |blanks|;
    var m := k + |body|;
    assert t == blanks + (body + rest);
    assert forall p :: 0 <= p < k ==> t[p] == blanks[p];
    assert forall p :: k <= p < m ==> t[p] == body[p - k];
    assert m < |t| ==> t[m] == rest[0];
    BlankEndAt(t, 0, k);
    FieldEndAt(t, k + 1, m);
    assert t[k..m] == body;
    if body[0] == '@' {
      assert t[k + 1..m] == body[1..];
      DecodeEndA(t, k, m);
    } else {
      DecodeEndC(t, k, m);
    }
  }

  /// "MD=M" is read with comp "MD": the "D" left over from the dest stays in
  /// the buffer.
  lemma StaleCompMD()
    ensures CFields("MD=M") == CIns("MD", "MD", "")
  {
    assert "MD" + "=" + "M" == "MD=M";
    CFieldsDest("MD", "M");
    assert Overlay("MD", "M") == "M" + "D";
  }

  /// "AM=M" is read with comp "MM", which is no comp code.
  lemma StaleCompAM()
    ensures CFields("AM=M") == CIns("AM", "MM", "")
  {
    assert "AM" + "=" + "M" == "AM=M";
    CFieldsDest("AM", "M");
    assert Overlay("AM", "M") == "M" + "M";
  }

  /// "D;JGT" needs no overlay: the jump is longer than the comp.
  lemma JumpAfterComp()
    ensures CFields("D;JGT") == CIns("", "D", "JGT")
  {
    assert "D" + ";" + "JGT" == "D;JGT";
    CFieldsJump("D", "JGT");
    assert Overlay("D", "JGT") == "JGT";
  }

  /// With every field at least as long as the one before it, the fields come
  /// out exactly as written.
  lemma CFieldsExact(d: string, c: string, j: string)
    requires d != [] && NoSeparator(d[1..]) && NoSeparator(c) && NoSeparator(j)
    requires |d| <= |c| <= |j|
    ensures CFields(d + "=" + c + ";" + j) == CIns(DestKey(d), c, j)
  {
    CFieldsFull(d, c, j);
  }
}

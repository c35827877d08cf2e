/// How the two passes of 6/hackasm.c read one line. Pass 1 looks for a label
/// "(SYM" or a variable "@sym" and notes whether the line holds an
/// instruction; pass 2 cuts the line into an A-instruction symbol or the
/// dest/comp/jump fields of a C-instruction, with the same `tmp` buffer
/// scheme as the other assemblers. Only the space character counts as a
/// blank here.
module HackLines {
  import opened CLib
  import opened AsmLines

  // ---------------------------------------------------------------- pass 1

  /// The characters that end a label or variable name in pass 1.
  predicate EndsSymbol(c: char) { c == ' ' || c == '\r' || c == '\n' || c == ')' }

  /// The first position from `i` on that ends a name.
  function SymbolEnd(t: string, i: nat): (n: nat)
    requires i <= |t|
    ensures i <= n <= |t| && (n < |t| ==> EndsSymbol(t[n]))
    decreases |t| - i
  {
    if i < |t| && !EndsSymbol(t[i]) then SymbolEnd(t, i + 1) else i
  }

  /// What pass 1 learns from a line: the name it found (empty for none),
  /// whether that name is a label, and whether the line counts as an
  /// instruction.
  datatype Scan = Scan(symbol: string, isLabel: bool, isInstr: bool)

  /// The scan of `t` from position `i` while no name has started; `instr`
  /// says whether an instruction character has been seen. Spaces are
  /// skipped, '/' and a line break end the line, '@' starts a variable
  /// (unless a digit follows) and '(' a label; every other character marks
  /// the line as an instruction and the scan goes on.
  function Top(t: string, i: nat, instr: bool): (r: Scan)
    requires i <= |t|
    decreases |t| - i
  {
    if i == |t| then Scan("", false, instr)
    else
      var c := t[i];
      if c == '/' || c == '\r' || c == '\n' then Scan("", false, instr)
      else if c == ' ' then Top(t, i + 1, instr)
      else if c == '@' then
        if i + 1 == |t| || IsDigit(t[i + 1]) then Scan("", false, true)
        else Scan(t[i + 1..SymbolEnd(t, i + 2)], false, true)
      else if c == '(' then Scan(t[i + 1..SymbolEnd(t, i + 1)], true, instr)
      else Top(t, i + 1, true)
  }

  /// Pass 1's reading of a line.
  function ScanOf(line: string): Scan
  {
    Top(CString(line), 0, false)
  }

  /// The character loop of pass 1 (6/hackasm.c) over the `strlen(line)`
  /// characters of a line.
  method ScanLine(line: string) returns (scan: Scan)
    ensures scan == ScanOf(line)
  {
    scan := ScanChars(CString(line));
  }

  method ScanChars(t: string) returns (scan: Scan)
    ensures scan == Top(t, 0, false)
  {
    ghost var a: nat := 0;
    ghost var f: nat := 0;
    ghost var expected := Top(t, 0, false);
    var symbol: string := [];
    var isVar, isAInstr, isLabel, isInstr := false, false, false, false;
    var i := 0;
    while i < |t|
      invariant i <= |t| && a <= i
      invariant !isVar && !isLabel && !isAInstr ==> symbol == [] && Top(t, i, isInstr) == expected
      invariant isAInstr && !isVar ==>
        !isLabel && isInstr && symbol == [] && i == a + 1 && t[a] == '@' && Top(t, a, true) == expected
      invariant isVar || isLabel ==>
        (isVar ==> isAInstr && !isLabel && isInstr && f == a + 2) && (isLabel ==> !isAInstr && f == a + 1)
        && f <= i && symbol == t[a + 1..i] && (forall p | f <= p < i :: !EndsSymbol(t[p]))
        && expected == Scan(t[a + 1..SymbolEnd(t, f)], isLabel, isInstr)
    {
      var c := t[i];
      if isVar || isLabel {
        if c == ' ' || c == '\r' || c == '\n' || c == ')' {
          break;
        } else {
          assert t[a + 1..i + 1] == t[a + 1..i] + [c];
          symbol := symbol + [c];
          i := i + 1;
          continue;
        }
      }
      if isAInstr {
        if IsDigit(c) {
          isAInstr := false;
          break;
        } else {
          isVar := true;
          f := i + 1;
          assert t[a + 1..i + 1] == [c];
          symbol := symbol + [c];
          i := i + 1;
          continue;
        }
      }
      if c == '/' {
        break;
      }
      if c == '\r' || c == '\n' {
        break;
      }
      if c == ' ' {
        i := i + 1;
        continue;
      }
      if c == '@' {
        isAInstr := true;
        a := i;
      } else if c == '(' {
        isLabel := true;
        a, f := i, i + 1;
      }
      if !isLabel {
        isInstr := true;
      }
      i := i + 1;
    }
    if isVar || isLabel {
      SymbolEndAt(t, f, i);
    }
    scan := Scan(symbol, isLabel, isInstr);
  }

  /// A label "(SYM)" after spaces is read as the label SYM on a line that is
  /// not an instruction.
  lemma ScanLabel(spaces: string, sym: string, tail: string)
    requires (forall i :: 0 <= i < |spaces| ==> spaces[i] == ' ') && '\0' !in sym
    requires forall i :: 0 <= i < |sym| ==> !EndsSymbol(sym[i])
    ensures ScanOf(spaces + "(" + sym + ")" + tail) == Scan(sym, true, false)
  {
    var w := spaces + "(" + sym + ")";
    assert '\0' !in spaces;
    assert '\0' !in w by { assert w == spaces + ("(" + (sym + ")")); }
    CStringPrefix(w, tail);
    LabelText(spaces, sym, CString(tail));
  }

  lemma LabelText(spaces: string, sym: string, r: string)
    requires forall i :: 0 <= i < |spaces| ==> spaces[i] == ' '
    requires forall i :: 0 <= i < |sym| ==> !EndsSymbol(sym[i])
    ensures Top(spaces + "(" + sym + ")" + r, 0, false) == Scan(sym, true, false)
  {
    var t := spaces + "(" + sym + ")" + r;
    var n := |spaces|;
    var e := n + 1 + |sym|;
    assert t[n] == '(' && t[e] == ')' && t[n + 1..e] == sym && t[..n] == spaces by {
      assert t == spaces + ("(" + (sym + (")" + r)));
    }
    assert SymbolEnd(t, n + 1) == e by {
      assert forall p :: n + 1 <= p < e ==> t[p] == t[n + 1..e][p - n - 1];
      SymbolEndAt(t, n + 1, e);
    }
    assert Top(t, n, false) == Scan(sym, true, false);
    assert forall p :: 0 <= p < n ==> t[p] == t[..n][p];
    SpacesThen(t, n, false);
  }

  /// A variable "@sym" after spaces, whose first character is not a digit,
  /// is read as the variable `sym` on an instruction line.
  lemma ScanVariable(spaces: string, sym: string, tail: string)
    requires (forall i :: 0 <= i < |spaces| ==> spaces[i] == ' ') && '\0' !in sym
    requires sym != [] && !IsDigit(sym[0]) && forall i :: 1 <= i < |sym| ==> !EndsSymbol(sym[i])
    requires tail == [] || EndsSymbol(tail[0]) || tail[0] == '\0'
    ensures ScanOf(spaces + "@" + sym + tail) == Scan(sym, false, true)
  {
    var w := spaces + "@" + sym;
    assert '\0' !in spaces;
    assert '\0' !in w by { assert w == spaces + ("@" + sym); }
    CStringPrefix(w, tail);
    var r := CString(tail);
    assert r == [] || EndsSymbol(r[0]) by {
      if tail != [] && tail[0] != '\0' {
        assert r == [tail[0]] + CString(tail[1..]);
      }
    }
    VariableText(spaces, sym, r);
  }

  lemma VariableText(spaces: string, sym: string, r: string)
    requires forall i :: 0 <= i < |spaces| ==> spaces[i] == ' '
    requires sym != [] && !IsDigit(sym[0]) && forall i :: 1 <= i < |sym| ==> !EndsSymbol(sym[i])
    requires r == [] || EndsSymbol(r[0])
    ensures Top(spaces + "@" + sym + r, 0, false) == Scan(sym, false, true)
  {
    var t := spaces + "@" + sym + r;
    var n := |spaces|;
    var e := n + 1 + |sym|;
    VariableFacts(spaces, sym, r);
    VariableAt(t, n, e);
    SpacesThen(t, n, false);
  }

  lemma VariableFacts(spaces: string, sym: string, r: string)
    requires sym != [] && !IsDigit(sym[0]) && forall i :: 1 <= i < |sym| ==> !EndsSymbol(sym[i])
    requires r == [] || EndsSymbol(r[0])
    ensures var t := spaces + "@" + sym + r;
      var n := |spaces|;
      var e := n + 1 + |sym|;
      t[n] == '@' && !IsDigit(t[n + 1]) && SymbolEnd(t, n + 2) == e && t[n + 1..e] == sym
      && forall p :: 0 <= p < n ==> t[p] == spaces[p]
  {
    var t := spaces + "@" + sym + r;
    var n := |spaces|;
    var e := n + 1 + |sym|;
    assert t == spaces + ("@" + (sym + r));
    assert t[n + 1..e] == sym && t[..n] == spaces && t[e..] == r;
    assert t[n + 1] == t[n + 1..e][0];
    assert forall p :: n + 2 <= p < e ==> t[p] == t[n + 1..e][p - n - 1];
    assert e < |t| ==> t[e] == t[e..][0];
    SymbolEndAt(t, n + 2, e);
    assert forall p :: 0 <= p < n ==> t[p] == t[..n][p];
  }

  lemma VariableAt(t: string, n: nat, e: nat)
    requires n + 2 <= e <= |t| && t[n] == '@' && !IsDigit(t[n + 1]) && SymbolEnd(t, n + 2) == e
    ensures Top(t, n, false) == Scan(t[n + 1..e], false, true)
  {
  }

  /// A line whose first character after spaces is none of '/', '(', '@' and
  /// the line breaks counts as an instruction.
  lemma ScanInstruction(spaces: string, c: char, tail: string)
    requires forall i :: 0 <= i < |spaces| ==> spaces[i] == ' '
    requires c != '/' && c != '(' && c != '@' && c != '\r' && c != '\n' && c != ' ' && c != '\0'
    ensures ScanOf(spaces + [c] + tail).isInstr
  {
    var w := spaces + [c];
    assert '\0' !in spaces;
    assert '\0' !in w;
    CStringPrefix(w, tail);
    var t := w + CString(tail);
    var n := |spaces|;
    assert t[n] == c;
    SpacesThen(t, n, false);
    TopKeepsInstr(t, n + 1);
  }

  lemma SymbolEndAt(t: string, i: nat, n: nat)
    requires i <= n <= |t| && (forall p :: i <= p < n ==> !EndsSymbol(t[p])) && (n < |t| ==> EndsSymbol(t[n]))
    ensures SymbolEnd(t, i) == n
    decreases n - i
  {
    if i < n {
      SymbolEndAt(t, i + 1, n);
    }
  }

  /// Leading spaces do not change the scan.
  lemma {:induction false} SpacesThen(t: string, n: nat, instr: bool)
    requires n <= |t| && forall p :: 0 <= p < n ==> t[p] == ' '
    ensures Top(t, 0, instr) == Top(t, n, instr)
  {
    if n > 0 {
      SpacesThen(t, n - 1, instr);
      SpaceStep(t, n - 1, instr);
    }
  }

  lemma SpaceStep(t: string, i: nat, instr: bool)
    requires i < |t| && t[i] == ' '
    ensures Top(t, i, instr) == Top(t, i + 1, instr)
  {
  }

  /// Once an instruction character is seen the line stays an instruction.
  lemma {:induction false} TopKeepsInstr(t: string, i: nat)
    requires i <= |t|
    ensures Top(t, i, true).isInstr
    decreases |t| - i
  {
    if i < |t| && (t[i] == ' ' || (t[i] != '/' && t[i] != '\r' && t[i] != '\n' && t[i] != '@' && t[i] != '(')) {
      TopKeepsInstr(t, i + 1);
    }
  }

  // ---------------------------------------------------------------- pass 2

  /// The first position from `i` on that is not a space.
  function SpaceEnd(t: string, i: nat): (n: nat)
    requires i <= |t|
    ensures i <= n <= |t| && (n < |t| ==> t[n] != ' ')
    decreases |t| - i
  {
    if i < |t| && t[i] == ' ' then SpaceEnd(t, i + 1) else i
  }

  /// Only spaces come before `SpaceEnd`.
  lemma {:induction false} SpaceEndSpaces(t: string, i: nat, p: nat)
    requires i <= |t| && i <= p < SpaceEnd(t, i)
    ensures t[p] == ' '
    decreases p - i
  {
    if i < p {
      SpaceEndSpaces(t, i + 1, p);
    }
  }

  /// The first position from `i` that is not a space is `SpaceEnd(t, i)`.
  lemma SpaceStop(t: string, i: nat, p: nat)
    requires i <= |t| && i <= p <= SpaceEnd(t, i) && (p == |t| || t[p] != ' ')
    ensures p == SpaceEnd(t, i)
  {
    if p < SpaceEnd(t, i) {
      SpaceEndSpaces(t, i, p);
      assert false;
    }
  }

  /// The first position from `i` on that ends a field of pass 2: a stop
  /// character or a space.
  function WordEnd(t: string, i: nat): (n: nat)
    requires i <= |t|
    ensures i <= n <= |t| && (n < |t| ==> IsStop(t[n]) || t[n] == ' ')
    decreases |t| - i
  {
    if i < |t| && !IsStop(t[i]) && t[i] != ' ' then WordEnd(t, i + 1) else i
  }

  /// No stop character and no space comes before `WordEnd`.
  lemma {:induction false} WordEndInside(t: string, i: nat, p: nat)
    requires i <= |t| && i <= p < WordEnd(t, i)
    ensures !IsStop(t[p]) && t[p] != ' '
    decreases p - i
  {
    if i < p {
      WordEndInside(t, i + 1, p);
    }
  }

  /// The first stop character or space from `i` is at `WordEnd(t, i)`.
  lemma WordStop(t: string, i: nat, p: nat)
    requires i <= |t| && i <= p <= WordEnd(t, i) && (p == |t| || IsStop(t[p]) || t[p] == ' ')
    ensures p == WordEnd(t, i)
  {
    if p < WordEnd(t, i) {
      WordEndInside(t, i, p);
      assert false;
    }
  }

  /// Pass 2's reading of a line: after the leading spaces, nothing at the end
  /// of the text or at a stop character; otherwise the instruction runs to
  /// the next stop character or space.
  function DecodeOf(line: string): Code
  {
    DecodeHackText(CString(line))
  }

  function DecodeHackText(t: string): Code
  {
    var k := SpaceEnd(t, 0);
    if k == |t| || IsStop(t[k]) then NoCode
    else
      var m := WordEnd(t, k + 1);
      if t[k] == '@' then AIns(t[k + 1..m]) else HackFields(t[k..m])
  }

  // ------------------------------------------- the fields of a C-instruction

  /// The `dest` buffer after a '=': a single register is appended to what
  /// it already holds, behind an '@'; any other text replaces it.
  function HackDest(dest: string, token: string): string
  {
    if token == "M" || token == "D" || token == "A" then dest + "@" + token else token
  }

  /// One character of a C-instruction in 6/hackasm.c: as in the other
  /// assemblers but for the '=', where `dest` is extended by `HackDest`.
  function HackStep(s: CScan, c: char): (r: CScan)
    requires Sane(s)
    ensures Sane(r)
  {
    if c == '=' then s.(dest := HackDest(s.dest, s.token), j := 0) else CStep(s, c)
  }

  function HackFold(s: CScan, cs: string): (r: CScan)
    requires Sane(s)
    ensures Sane(r)
  {
    if cs == [] then s else HackStep(HackFold(s, cs[..|cs| - 1]), cs[|cs| - 1])
  }

  /// The fields of a C-instruction whose text is `body` in 6/hackasm.c.
  function HackFields(body: string): Code
    requires body != []
  {
    Finish(HackFold(Start(body[0]), body[1..]))
  }

  lemma HackFoldSnoc(s: CScan, cs: string, cs': string)
    requires Sane(s) && cs' != [] && cs == cs'[..|cs'| - 1]
    ensures HackFold(s, cs') == HackStep(HackFold(s, cs), cs'[|cs'| - 1])
  {
  }

  /// A text without '=' leaves `dest` alone.
  lemma {:induction false} HackFoldKeepsDest(s: CScan, cs: string)
    requires Sane(s) && '=' !in cs
    ensures HackFold(s, cs).dest == s.dest
    decreases |cs|
  {
    if cs != [] {
      assert cs[|cs| - 1] in cs;
      assert forall c :: c in cs[..|cs| - 1] ==> c in cs;
      HackFoldKeepsDest(s, cs[..|cs| - 1]);
    }
  }

  /// With at most one '=', the scan of 6/hackasm.c and that of the other
  /// assemblers agree: they part only on a second '='.
  lemma {:induction false} HackFoldAgrees(s: CScan, cs: string)
    requires Sane(s) && s.dest == "" && multiset(cs)['='] <= 1
    ensures HackFold(s, cs) == CFold(s, cs)
    decreases |cs|
  {
    if cs != [] {
      var front := cs[..|cs| - 1];
      assert cs == front + [cs[|cs| - 1]];
      assert multiset(cs) == multiset(front) + multiset{cs[|cs| - 1]};
      HackFoldAgrees(s, front);
      if cs[|cs| - 1] == '=' {
        assert multiset(front)['='] == 0;
        HackFoldKeepsDest(s, front);
        assert "" + "@" == "@";
      }
    }
  }

  /// The fields of an instruction with at most one '=' are those the other
  /// assemblers read.
  lemma HackFieldsAgree(body: string)
    requires body != [] && multiset(body)['='] <= 1
    ensures HackFields(body) == CFields(body)
  {
    assert body == [body[0]] + body[1..];
    assert multiset(body) == multiset{body[0]} + multiset(body[1..]);
    HackFoldAgrees(Start(body[0]), body[1..]);
  }

  /// Two single-register destinations: the second is appended to the first
  /// ("M=D=A" has the dest text "@M@D", and the comp "A").
  lemma TwoRegisterDest()
    ensures HackFields("M=D=A") == CIns("@M@D", "A", "")
    ensures CFields("M=D=A") == CIns("@D", "A", "")
  {
    var s0 := Start('M');
    var s1 := HackStep(s0, '=');
    assert s1 == CScan("M", 0, "@M", "", false);
    var s2 := HackStep(s1, 'D');
    assert s2 == CScan("D", 1, "@M", "", false);
    var s3 := HackStep(s2, '=');
    assert "@M" + "@" + "D" == "@M@D";
    assert s3 == CScan("D", 0, "@M@D", "", false);
    var s4 := HackStep(s3, 'A');
    assert s4 == CScan("A", 1, "@M@D", "", false);
    var body := "M=D=A";
    assert body[1..] == "=D=A";
    assert body[1..][..3] == "=D=" && body[1..][..3][..2] == "=D" && body[1..][..3][..2][..1] == "=";
    assert HackFold(s0, "=") == s1;
    assert HackFold(s0, "=D") == s2;
    assert HackFold(s0, "=D=") == s3;
    assert HackFold(s0, "=D=A") == s4;
    assert CFold(s0, "=") == s1;
    assert CFold(s0, "=D") == s2;
    assert CFold(s0, "=D=") == CScan("D", 0, "@D", "", false);
    assert CFold(s0, "=D=A") == CScan("A", 1, "@D", "", false);
  }

  /// The character loop of pass 2 (6/hackasm.c) over the `strlen(line)`
  /// characters of a line.
  method DecodeHackLine(line: string) returns (code: Code)
    ensures code == DecodeOf(line)
  {
    code := DecodeHackChars(CString(line));
  }

  method DecodeHackChars(t: string) returns (code: Code)
    ensures code == DecodeHackText(t)
  {
    ghost var k := SpaceEnd(t, 0);
    ghost var m := if k < |t| then WordEnd(t, k + 1) else k;
    var opcode := Unset;
    var aInstr := "";
    var tmp := "";
    var j: nat := 0;
    var dest := "";
    var comp := "";
    var hasJump := false;
    var i := 0;
    while i < |t|
      invariant i <= |t| && j <= |tmp|
      invariant opcode == Unset ==> i <= k && tmp == [] && j == 0
      invariant opcode == Unset ==> aInstr == [] && dest == [] && comp == [] && !hasJump
      invariant opcode != Unset ==> k < i <= m && !IsStop(t[k])
      invariant opcode == AOpcode ==> t[k] == '@' && aInstr == t[k + 1..i]
      invariant opcode == COpcode ==> t[k] != '@'
      invariant opcode == COpcode ==>
        CScan(tmp, j, dest, comp, hasJump) == HackFold(Start(t[k]), t[k + 1..i])
    {
      var c := t[i];
      if c == '/' || c == '\r' || c == '\n' || c == '(' {
        break;
      }
      if opcode == Unset {
        if c == ' ' {
          assert i < k;
          i := i + 1;
          continue;
        }
        SpaceStop(t, 0, i);
        if c == '@' {
          opcode := AOpcode;
        } else {
          opcode := COpcode;
          tmp := Put(tmp, j, c);
          j := j + 1;
          assert t[k + 1..i + 1] == [] && CScan(tmp, j, dest, comp, hasJump) == Start(c);
        }
      } else {
        if c == ' ' {
          break;
        }
        assert i < m;
        if opcode == AOpcode {
          aInstr := aInstr + [c];
          assert aInstr == t[k + 1..i + 1];
        } else {
          tmp, j, dest, comp, hasJump := HackScanC(tmp, j, dest, comp, hasJump, c);
          HackFoldSnoc(Start(t[k]), t[k + 1..i], t[k + 1..i + 1]);
        }
      }
      i := i + 1;
    }
    if opcode == Unset {
      SpaceStop(t, 0, i);
      code := NoCode;
    } else if opcode == AOpcode {
      WordStop(t, k + 1, i);
      HackEndA(t, k, i);
      code := AIns(aInstr);
    } else {
      WordStop(t, k + 1, i);
      HackEndScan(t, k, i, CScan(tmp, j, dest, comp, hasJump));
      if hasJump {
        code := CIns(dest, comp, tmp);
      } else {
        code := CIns(dest, tmp, "");
      }
    }
  }

  lemma HackEndA(t: string, k: nat, m: nat)
    requires k == SpaceEnd(t, 0) < |t| && t[k] == '@' && m == WordEnd(t, k + 1)
    ensures DecodeHackText(t) == AIns(t[k + 1..m])
  {
  }

  /// The C-instruction of a line from the scan of its word.
  lemma HackEndScan(t: string, k: nat, m: nat, sc: CScan)
    requires k == SpaceEnd(t, 0) < |t| && !IsStop(t[k]) && t[k] != '@' && m == WordEnd(t, k + 1)
    requires sc == HackFold(Start(t[k]), t[k + 1..m])
    ensures DecodeHackText(t) == Finish(sc)
  {
    HackEndC(t, k, m);
    assert t[k..m][0] == t[k] && t[k..m][1..] == t[k + 1..m];
  }

  lemma HackEndC(t: string, k: nat, m: nat)
    requires k == SpaceEnd(t, 0) < |t| && !IsStop(t[k]) && t[k] != '@' && m == WordEnd(t, k + 1)
    ensures DecodeHackText(t) == HackFields(t[k..m])
  {
  }

  /// The C-instruction branch of the pass-2 loop of 6/hackasm.c for one
  /// character.
  method HackScanC(tmp: string, j: nat, dest: string, comp: string, hasJump: bool, c: char)
      returns (tmp': string, j': nat, dest': string, comp': string, hasJump': bool)
    requires j <= |tmp|
    ensures CScan(tmp', j', dest', comp', hasJump') == HackStep(CScan(tmp, j, dest, comp, hasJump), c)
  {
    tmp', j', dest', comp', hasJump' := tmp, j, dest, comp, hasJump;
    if c == '=' {
      if tmp == "M" || tmp == "D" || tmp == "A" {
        dest' := dest + "@" + tmp;
      } else {
        dest' := tmp;
      }
      j' := 0;
    } else if c == ';' {
      comp' := tmp;
      j' := 0;
      hasJump' := true;
    } else {
      tmp' := Put(tmp, j, c);
      j' := j + 1;
    }
  }

  lemma SpaceEndAt(s: string, i: nat, n: nat)
    requires i <= n <= |s| && (forall p :: i <= p < n ==> s[p] == ' ') && (n < |s| ==> s[n] != ' ')
    ensures SpaceEnd(s, i) == n
    decreases n - i
  {
    if i < n {
      SpaceEndAt(s, i + 1, n);
    }
  }

  lemma WordEndAt(s: string, i: nat, n: nat)
    requires i <= n <= |s| && (forall p :: i <= p < n ==> !IsStop(s[p]) && s[p] != ' ')
    requires n < |s| ==> IsStop(s[n]) || s[n] == ' '
    ensures WordEnd(s, i) == n
    decreases n - i
  {
    if i < n {
      WordEndAt(s, i + 1, n);
    }
  }

  /// A line holding spaces, then an instruction `body`, then the end of the
  /// text, a stop character or a space, decodes to `body`'s fields. Unlike
  /// the other assemblers, a tab is part of the instruction.
  lemma DecodeHackInstruction(spaces: string, body: string, rest: string)
    requires forall i :: 0 <= i < |spaces| ==> spaces[i] == ' '
    requires body != [] && body[0] != ' ' && !IsStop(body[0]) && '\0' !in body
    requires forall i :: 1 <= i < |body| ==> !IsStop(body[i]) && body[i] != ' '
    requires rest == [] || IsStop(rest[0]) || rest[0] == ' ' || rest[0] == '\0'
    ensures DecodeOf(spaces + body + rest) == if body[0] == '@' then AIns(body[1..]) else HackFields(body)
  {
    assert '\0' !in spaces;
    assert '\0' !in spaces + body;
    CStringPrefix(spaces + body, rest);
    var r := CString(rest);
    assert r == [] || IsStop(r[0]) || r[0] == ' ' by {
      if rest != [] && rest[0] != '\0' {
        assert r == [rest[0]] + CString(rest[1..]);
      }
    }
    HackText(spaces, body, r);
  }

  lemma HackText(spaces: string, body: string, r: string)
    requires forall i :: 0 <= i < |spaces| ==> spaces[i] == ' '
    requires body != [] && body[0] != ' ' && !IsStop(body[0])
    requires forall i :: 1 <= i < |body| ==> !IsStop(body[i]) && body[i] != ' '
    requires r == [] || IsStop(r[0]) || r[0] == ' '
    ensures DecodeHackText(spaces + body + r) == if body[0] == '@' then AIns(body[1..]) else HackFields(body)
  {
    var t := spaces + body + r;
    var k := |spaces|;
    var m := k + |body|;
    HackFacts(spaces, body, r);
    SpaceEndAt(t, 0, k);
    if body[0] == '@' {
      HackEndA(t, k, m);
    } else {
      HackEndC(t, k, m);
    }
  }

  lemma HackFacts(spaces: string, body: string, r: string)
    requires body != [] && forall i :: 1 <= i < |body| ==> !IsStop(body[i]) && body[i] != ' '
    requires r == [] || IsStop(r[0]) || r[0] == ' '
    ensures var t := spaces + body + r;
      var k := |spaces|;
      var m := k + |body|;
      t[k..m] == body && t[k + 1..m] == body[1..] && t[k] == body[0] && WordEnd(t, k + 1) == m
      && forall p :: 0 <= p < k ==> t[p] == spaces[p]
  {
    var t := spaces + body + r;
    var k := |spaces|;
    var m := k + |body|;
    assert t == spaces + (body + r);
    assert t[k..m] == body && t[..k] == spaces && t[m..] == r;
    assert forall p :: k <= p < m ==> t[p] == t[k..m][p - k];
    assert m < |t| ==> t[m] == t[m..][0];
    WordEndAt(t, k + 1, m);
    assert forall p :: 0 <= p < k ==> t[p] == t[..k][p];
  }
}

/// Properties of the model of 6/hackasm.c: what pass 1 binds labels and
/// variables to, the shape and value of the words pass 2 prints, and the
/// cases it never rejects.
module HackProps {
  import opened CLib
  import opened AsmLines
  import opened HackLines
  import opened HackTable
  import opened HackAsm

  // ---------------------------------------------------------------- pass 1

  /// The first pass over `scans[i..k]` only.
  function Upto(st: Pass1, scans: seq<Scan>, i: nat, k: nat): Pass1
    requires i <= k <= |scans|
    decreases k - i
  {
    if i == k then st else Upto(FirstLine(st, scans[i]), scans, i + 1, k)
  }

  /// The number of instruction lines among `scans[i..k]`.
  function Instrs(scans: seq<Scan>, i: nat, k: nat): nat
    requires i <= k <= |scans|
    decreases k - i
  {
    if i == k then 0 else (if scans[i].isInstr then 1 else 0) + Instrs(scans, i + 1, k)
  }

  /// The first pass is the pass up to `k` followed by the pass from `k`.
  lemma {:induction false} FirstPassSplit(st: Pass1, scans: seq<Scan>, i: nat, k: nat)
    requires i <= k <= |scans|
    ensures FirstPass(st, scans, i) == FirstPass(Upto(st, scans, i, k), scans, k)
    decreases k - i
  {
    if i < k {
      FirstPassSplit(FirstLine(st, scans[i]), scans, i + 1, k);
    }
  }

  /// `lineNumber` counts the instruction lines, and `nextAddress` grows by at
  /// most one per line.
  lemma {:induction false} UptoCounts(st: Pass1, scans: seq<Scan>, i: nat, k: nat)
    requires i <= k <= |scans|
    ensures Upto(st, scans, i, k).lineNumber == st.lineNumber + Instrs(scans, i, k)
    ensures st.next <= Upto(st, scans, i, k).next <= st.next + (k - i)
    decreases k - i
  {
    if i < k {
      UptoCounts(FirstLine(st, scans[i]), scans, i + 1, k);
    }
  }

  /// A symbol that no line in `scans[i..k]` names keeps its entry.
  lemma {:induction false} UptoUntouched(st: Pass1, scans: seq<Scan>, i: nat, k: nat, s: string)
    requires i <= k <= |scans|
    requires forall j :: i <= j < k ==> scans[j].symbol != s
    ensures Lookup(Upto(st, scans, i, k).table, s) == Lookup(st.table, s)
    decreases k - i
  {
    if i < k {
      var st' := FirstLine(st, scans[i]);
      assert Lookup(st'.table, s) == Lookup(st.table, s);
      UptoUntouched(st', scans, i + 1, k, s);
    }
  }

  /// The same for the rest of the pass.
  lemma {:induction false} Untouched(st: Pass1, scans: seq<Scan>, i: nat, s: string)
    requires i <= |scans|
    requires forall j :: i <= j < |scans| ==> scans[j].symbol != s
    ensures Lookup(FirstPass(st, scans, i).table, s) == Lookup(st.table, s)
    decreases |scans| - i
  {
    if i < |scans| {
      var st' := FirstLine(st, scans[i]);
      assert Lookup(st'.table, s) == Lookup(st.table, s);
      Untouched(st', scans, i + 1, s);
    }
  }

  /// "(SYM)" at line `k`, with no later line naming SYM, leaves SYM bound to
  /// the number of instruction lines before it. Earlier lines do not matter:
  /// an address SYM got as a variable before its label is overwritten.
  lemma LabelBinding(st: Pass1, scans: seq<Scan>, k: nat)
    requires k < |scans| && scans[k].isLabel && scans[k].symbol != []
    requires forall j :: k < j < |scans| ==> scans[j].symbol != scans[k].symbol
    ensures Lookup(FirstPass(st, scans, 0).table, scans[k].symbol)
      == ToUnsigned(st.lineNumber + Instrs(scans, 0, k))
  {
    var s := scans[k].symbol;
    var at := Upto(st, scans, 0, k);
    FirstPassSplit(st, scans, 0, k);
    UptoCounts(st, scans, 0, k);
    var after := FirstLine(at, scans[k]);
    assert Lookup(after.table, s) == ToUnsigned(at.lineNumber);
    Untouched(after, scans, k + 1, s);
  }

  /// "@sym" at line `k`, where sym is not SP or R0, reads 0 in the table the
  /// pass starts from and is named on no other line, binds sym to the value
  /// `nextAddress` had when line `k` was reached, and that value is at least
  /// the address the pass started from.
  lemma VariableBinding(st: Pass1, scans: seq<Scan>, k: nat)
    requires k < |scans| && !scans[k].isLabel && scans[k].symbol != []
    requires scans[k].symbol != "SP" && scans[k].symbol != "R0"
    requires Lookup(st.table, scans[k].symbol) == 0
    requires forall j :: 0 <= j < |scans| && j != k ==> scans[j].symbol != scans[k].symbol
    ensures Lookup(FirstPass(st, scans, 0).table, scans[k].symbol) == ToUnsigned(Upto(st, scans, 0, k).next)
    ensures st.next <= Upto(st, scans, 0, k).next <= st.next + k
  {
    var s := scans[k].symbol;
    var at := Upto(st, scans, 0, k);
    FirstPassSplit(st, scans, 0, k);
    UptoCounts(st, scans, 0, k);
    UptoUntouched(st, scans, 0, k, s);
    var after := FirstLine(at, scans[k]);
    assert Lookup(after.table, s) == ToUnsigned(at.next);
    Untouched(after, scans, k + 1, s);
  }

  /// A variable the pass allocates at line `k` moves `nextAddress` on, so a
  /// variable allocated at a later line gets a larger address.
  lemma AllocationAdvances(st: Pass1, scans: seq<Scan>, k: nat, k': nat)
    requires k < k' <= |scans| && !scans[k].isLabel && scans[k].symbol != []
    requires scans[k].symbol != "SP" && scans[k].symbol != "R0"
    requires Lookup(Upto(st, scans, 0, k).table, scans[k].symbol) == 0
    ensures Upto(st, scans, 0, k).next < Upto(st, scans, 0, k').next
  {
    UptoStep(st, scans, 0, k);
    var after := FirstLine(Upto(st, scans, 0, k), scans[k]);
    UptoFrom(st, scans, 0, k + 1, k');
    UptoCounts(after, scans, k + 1, k');
  }

  /// Two symbols allocated as variables, at different lines, get different
  /// addresses (while `nextAddress` stays below 2^32).
  lemma DistinctVariables(st: Pass1, scans: seq<Scan>, k: nat, k': nat)
    requires k < k' < |scans| && st.next + |scans| <= WORD
    requires !scans[k].isLabel && scans[k].symbol != [] && scans[k].symbol != "SP" && scans[k].symbol != "R0"
    requires !scans[k'].isLabel && scans[k'].symbol != [] && scans[k'].symbol != "SP" && scans[k'].symbol != "R0"
    requires Lookup(st.table, scans[k].symbol) == 0 && Lookup(st.table, scans[k'].symbol) == 0
    requires forall j :: 0 <= j < |scans| && j != k ==> scans[j].symbol != scans[k].symbol
    requires forall j :: 0 <= j < |scans| && j != k' ==> scans[j].symbol != scans[k'].symbol
    ensures Lookup(FirstPass(st, scans, 0).table, scans[k].symbol)
      != Lookup(FirstPass(st, scans, 0).table, scans[k'].symbol)
  {
    VariableBinding(st, scans, k);
    VariableBinding(st, scans, k');
    UptoUntouched(st, scans, 0, k, scans[k].symbol);
    AllocationAdvances(st, scans, k, k');
  }

  lemma UptoStep(st: Pass1, scans: seq<Scan>, i: nat, k: nat)
    requires i <= k < |scans|
    ensures Upto(st, scans, i, k + 1) == FirstLine(Upto(st, scans, i, k), scans[k])
    decreases k - i
  {
    if i < k {
      UptoStep(FirstLine(st, scans[i]), scans, i + 1, k);
    }
  }

  lemma {:induction false} UptoFrom(st: Pass1, scans: seq<Scan>, i: nat, k: nat, k': nat)
    requires i <= k <= k' <= |scans|
    ensures Upto(st, scans, i, k') == Upto(Upto(st, scans, i, k), scans, k, k')
    decreases k - i
  {
    if i < k {
      UptoFrom(FirstLine(st, scans[i]), scans, i + 1, k, k');
    }
  }

  /// A label bound to address 0 reads as "unbound" to the variable test, so
  /// "(START)" on the first line followed by "@START" re-binds START as a
  /// variable at the next address: the jump no longer goes to line 0.
  lemma LabelAtZeroReallocated(m: map<string, u32>, next: nat)
    requires next < WORD
    ensures Lookup(FirstPass(Pass1(m, 0, next), Scans(["(START)", "@START"]), 0).table, "START") == next
  {
    StartScans();
    var scans := [Scan("START", true, false), Scan("START", false, true)];
    var st1 := FirstLine(Pass1(m, 0, next), scans[0]);
    assert Lookup(st1.table, "START") == 0;
    assert FirstPass(Pass1(m, 0, next), scans, 0) == FirstLine(st1, scans[1]);
  }

  lemma StartScans()
    ensures Scans(["(START)", "@START"]) == [Scan("START", true, false), Scan("START", false, true)]
  {
    StartLabel();
    StartVariable();
    ScansAt(["(START)", "@START"], 0);
    ScansAt(["(START)", "@START"], 1);
  }

  lemma StartLabel()
    ensures ScanOf("(START)") == Scan("START", true, false)
  {
    ScanLabel("", "START", "");
    assert "(START)" == "" + "(" + "START" + ")" + "";
  }

  lemma StartVariable()
    ensures ScanOf("@START") == Scan("START", false, true)
  {
    ScanVariable("", "START", "");
    assert "@START" == "" + "@" + "START" + "";
  }

  // ---------------------------------------------------------------- pass 2

  /// An A-word is 16 characters, opcode '0', and denotes the address modulo
  /// 2^15.
  lemma AWordValue(address: u32)
    ensures |AWord(address)| == 16 && AWord(address)[0] == '0'
    ensures BinValue(AWord(address)) == address % 32768
  {
    Pow2Values();
    var b := Bits(address, 15);
    assert AWord(address) == "0" + b;
    BinValueBits(address, 15);
    BinValueZero(b);
  }

  /// A C-word is 16 characters: "111", then the codes of comp, dest and jump
  /// modulo 2^7, 2^3 and 2^3.
  lemma CWordValue(comp: u32, dest: u32, jump: u32)
    ensures var w := CWord(comp, dest, jump);
      |w| == 16 && w[..3] == "111"
      && BinValue(w[3..10]) == comp % 128 && BinValue(w[10..13]) == dest % 8 && BinValue(w[13..]) == jump % 8
  {
    Pow2Values();
    var w := CWord(comp, dest, jump);
    assert w[3..10] == Bits(comp, 7);
    assert w[10..13] == Bits(dest, 3);
    assert w[13..] == Bits(jump, 3);
    BinValueBits(comp, 7);
    BinValueBits(dest, 3);
    BinValueBits(jump, 3);
  }

  /// "@n" with `n` in decimal up to INT_MAX addresses `n` itself, with no
  /// bounds check: the word holds `n` modulo 2^15.
  lemma DecimalUnchecked(m: map<string, u32>, v: nat)
    requires v <= INT_MAX
    ensures Words(m, AIns(NatStr(v))) == [AWord(v)]
    ensures BinValue(AWord(v)) == v % 32768
  {
    AWordValue(v);
  }

  /// So "@32768" is assembled as "@0".
  lemma DecimalWraps(m: map<string, u32>)
    ensures Words(m, AIns(NatStr(32768))) == [AWord(0)]
  {
    Pow2Values();
    BitsCongruent(32768, 0, 1, 15);
  }

  /// A C-instruction is never rejected: parts missing from the table read as
  /// code 0.
  lemma UnknownParts(m: map<string, u32>, dest: string, comp: string, jump: string)
    requires dest !in m && comp !in m && jump !in m
    ensures Words(m, CIns(dest, comp, jump)) == ["1110000000000000"]
  {
    ZerosAreBits(7);
    ZerosAreBits(3);
    assert Zeros(3) == "000";
    assert Zeros(7) == "0000000";
    assert Lookup(m, comp) == 0 && Lookup(m, dest) == 0 && Lookup(m, jump) == 0;
    assert CWord(0, 0, 0) == "111" + "0000000" + "000" + "000";
    assert "111" + "0000000" + "000" + "000" == "1110000000000000";
  }

  /// Two single-register destinations make a dest text no table holds, so
  /// its three bits are 000.
  lemma TwoRegisterDestBits(m: map<string, u32>)
    requires "@M@D" !in m
    ensures Words(m, HackFields("M=D=A")) == [CWord(Lookup(m, "A"), 0, Lookup(m, ""))]
  {
    TwoRegisterDest();
  }

  /// The number of lines among `lines[i..]` that carry an instruction.
  function CodeLines(lines: seq<string>, i: nat): nat
    requires i <= |lines|
    decreases |lines| - i
  {
    if i == |lines| then 0 else (if DecodeOf(lines[i]).NoCode? then 0 else 1) + CodeLines(lines, i + 1)
  }

  /// One word per decoded line, 16 characters, '0' first exactly for an
  /// A-instruction.
  lemma WordsShape(m: map<string, u32>, code: Code)
    ensures |Words(m, code)| == if code.NoCode? then 0 else 1
    ensures forall w :: w in Words(m, code) ==> |w| == 16 && (w[0] == '0' <==> code.AIns?)
  {
    match code
    case NoCode =>
    case AIns(a) => AWordValue(Address(m, a));
    case CIns(d, c, j) => CWordValue(Lookup(m, c), Lookup(m, d), Lookup(m, j));
  }

  /// The second pass keeps what it has written and adds one word per
  /// instruction line.
  lemma {:induction false} SecondPassLength(m: map<string, u32>, lines: seq<string>, i: nat, out: seq<string>)
    requires i <= |lines|
    ensures |SecondPass(m, lines, i, out)| == |out| + CodeLines(lines, i)
    ensures SecondPass(m, lines, i, out)[..|out|] == out
    decreases |lines| - i
  {
    if i < |lines| {
      var code := DecodeOf(lines[i]);
      WordsShape(m, code);
      var out' := out + Words(m, code);
      SecondPassLength(m, lines, i + 1, out');
      var r := SecondPass(m, lines, i + 1, out');
      assert SecondPass(m, lines, i, out) == r;
      assert CodeLines(lines, i) == |Words(m, code)| + CodeLines(lines, i + 1);
      assert r[..|out|] == r[..|out'|][..|out|] == out'[..|out|] == out;
    }
  }

  /// Every word the second pass adds is 16 characters long: the pass can
  /// never fail and never prints an over-long field.
  lemma {:induction false} SecondPassWords(m: map<string, u32>, lines: seq<string>, i: nat, out: seq<string>)
    requires i <= |lines| && forall k :: 0 <= k < |out| ==> |out[k]| == 16
    ensures forall w :: w in SecondPass(m, lines, i, out) ==> |w| == 16
    decreases |lines| - i
  {
    if i == |lines| {
      assert forall w :: w in out ==> |w| == 16;
    } else {
      var code := DecodeOf(lines[i]);
      var ws := Words(m, code);
      WordsShape(m, code);
      var out' := out + ws;
      forall k | 0 <= k < |out'|
        ensures |out'[k]| == 16
      {
        if k >= |out| { assert out'[k] in ws; }
      }
      SecondPassWords(m, lines, i + 1, out');
    }
  }
}

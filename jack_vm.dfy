/// The VM commands the code generator of src/compiler.c prints, one per
/// line, and the text of each line.
module JackVm {
  import opened CLib

  /// The arithmetic and logical commands the code generator uses.
  datatype ArithOp = AddOp | SubOp | NegOp | NotOp | AndOp | OrOp | LtOp | GtOp | EqOp

  /// A control-flow label `<cls>_<i>_<d>_<j>`: the class name, the counter
  /// value of the statement, its nesting depth and the label's role.
  datatype LabelName = LabelName(cls: string, i: nat, d: nat, j: nat)

  /// One printed line.
  datatype VmCmd =
    | PushCmd(seg: string, n: int)
    | PopCmd(seg: string, n: int)
    | ArithCmd(op: ArithOp)
    | CallCmd(cls: string, sub: string, nArgs: int)
    | FunctionCmd(cls: string, sub: string, nLocals: int)
    | LabelCmd(lbl: LabelName)
    | GotoCmd(lbl: LabelName)
    | IfGotoCmd(lbl: LabelName)
    | ReturnCmd

  function OpName(op: ArithOp): string
  {
    match op
    case AddOp => "add"
    case SubOp => "sub"
    case NegOp => "neg"
    case NotOp => "not"
    case AndOp => "and"
    case OrOp => "or"
    case LtOp => "lt"
    case GtOp => "gt"
    case EqOp => "eq"
  }

  /// The `%s_%zu_%zu_%d` label text.
  function LabelText(l: LabelName): string
  {
    l.cls + ("_" + Numbers(l))
  }

  /// The part of a label after the class name and its underscore.
  function Numbers(l: LabelName): string
  {
    NatStr(l.i) + ("_" + (NatStr(l.d) + ("_" + NatStr(l.j))))
  }

  /// The line `fprintf` writes for a command, without its newline. Label
  /// definitions start in column 0, every other command after a tab.
  function Render(c: VmCmd): string
  {
    match c
    case PushCmd(seg, n) => "\tpush " + seg + " " + IntStr(n)
    case PopCmd(seg, n) => "\tpop " + seg + " " + IntStr(n)
    case ArithCmd(op) => "\t" + OpName(op)
    case CallCmd(cls, sub, n) => "\tcall " + cls + "." + sub + " " + IntStr(n)
    case FunctionCmd(cls, sub, n) => "function " + cls + "." + sub + " " + IntStr(n)
    case LabelCmd(l) => "label " + LabelText(l)
    case GotoCmd(l) => "\tgoto " + LabelText(l)
    case IfGotoCmd(l) => "\tif-goto " + LabelText(l)
    case ReturnCmd => "\treturn"
  }

  /// The lines of the output file.
  function Text(cs: seq<VmCmd>): (lines: seq<string>)
    ensures |lines| == |cs| && forall k | 0 <= k < |cs| :: lines[k] == Render(cs[k])
  {
    if cs == [] then [] else [Render(cs[0])] + Text(cs[1..])
  }

  /// Within one class the label text determines the label: the three
  /// numbers are digit strings, so the underscores that separate them are
  /// found again.
  lemma LabelTextInjective(a: LabelName, b: LabelName)
    requires a.cls == b.cls && LabelText(a) == LabelText(b)
    ensures a == b
  {
    PrefixCancel(a.cls, "_" + Numbers(a), "_" + Numbers(b));
    PrefixCancel("_", Numbers(a), Numbers(b));
    var da, db := NatStr(a.d) + ("_" + NatStr(a.j)), NatStr(b.d) + ("_" + NatStr(b.j));
    SplitAtUnderscore(NatStr(a.i), da, NatStr(b.i), db);
    SplitAtUnderscore(NatStr(a.d), NatStr(a.j), NatStr(b.d), NatStr(b.j));
    NatStrInjective(a.i, b.i);
    NatStrInjective(a.d, b.d);
    NatStrInjective(a.j, b.j);
  }

  lemma PrefixCancel(p: string, x: string, y: string)
    requires p + x == p + y
    ensures x == y
  {
    assert x == (p + x)[|p|..];
    assert y == (p + y)[|p|..];
  }

  /// A digit string followed by an underscore splits there.
  lemma SplitAtUnderscore(x: string, y: string, x': string, y': string)
    requires AllDigits(x) && AllDigits(x') && x + ("_" + y) == x' + ("_" + y')
    ensures x == x' && y == y'
  {
    var s := x + ("_" + y);
    if |x| == |x'| {
      assert x == s[..|x|] == x';
      assert y == s[|x| + 1..] == y';
    } else if |x| < |x'| {
      ConcatAt(x, "_" + y, |x|);
      ConcatAt(x', "_" + y', |x|);
    } else {
      ConcatAt(x', "_" + y', |x'|);
      ConcatAt(x, "_" + y, |x'|);
    }
  }

  lemma ConcatAt(x: string, y: string, k: int)
    ensures 0 <= k < |x| ==> (x + y)[k] == x[k]
    ensures |x| <= k < |x| + |y| ==> (x + y)[k] == y[k - |x|]
  {
  }

  lemma NatStrInjective(m: nat, n: nat)
    requires NatStr(m) == NatStr(n)
    ensures m == n
  {
  }
}

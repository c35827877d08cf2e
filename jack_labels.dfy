/// The label scheme of the statement compiler of src/compiler.c: every
/// while/if draws a fresh number from `gotoInc`, so the labels a statement
/// list defines are pairwise distinct, every jump lands on a label of the
/// same code, and both stay within the numbers the list drew.
module JackLabels {
  import opened CLib
  import opened JackTokens
  import opened JackVm
  import opened JackAst
  import opened JackEngine
  import opened JackStmtProps

  /// The label a command defines, if any.
  function DefOf(x: VmCmd): seq<LabelName>
  {
    if x.LabelCmd? then [x.lbl] else []
  }

  /// The label a command jumps to, if any.
  function JumpOf(x: VmCmd): seq<LabelName>
  {
    if x.GotoCmd? || x.IfGotoCmd? then [x.lbl] else []
  }

  /// The labels `c` defines, in order.
  function Defs(c: seq<VmCmd>): seq<LabelName>
  {
    if c == [] then [] else DefOf(c[0]) + Defs(c[1..])
  }

  /// The labels `c` jumps to, in order.
  function Jumps(c: seq<VmCmd>): seq<LabelName>
  {
    if c == [] then [] else JumpOf(c[0]) + Jumps(c[1..])
  }

  /// No label is defined twice.
  predicate NoDup(s: seq<LabelName>)
  {
    forall a, b | 0 <= a < b < |s| :: s[a] != s[b]
  }

  /// A label of class `cls` numbered in `[lo, hi)` below depth `d`.
  predicate Owned(l: LabelName, cls: string, d: nat, lo: nat, hi: nat)
  {
    l.cls == cls && lo <= l.i < hi && l.d > d
  }

  /// Code without labels and jumps.
  predicate Flat(c: seq<VmCmd>)
  {
    forall k | 0 <= k < |c| :: !c[k].LabelCmd? && !c[k].GotoCmd? && !c[k].IfGotoCmd?
  }

  /// What `StmtsCode` promises about the labels of its code `c`, drawn
  /// from `i` up to `i'`.
  ghost predicate WellLabelled(c: seq<VmCmd>, cls: string, d: nat, i: nat, i': nat)
  {
    Labelled(Defs(c), Jumps(c), cls, d, i, i')
  }

  /// The same for the labels `ds` defined and `js` jumped to.
  ghost predicate Labelled(ds: seq<LabelName>, js: seq<LabelName>, cls: string, d: nat, i: nat, i': nat)
  {
    i <= i' && NoDup(ds)
    && (forall l | l in ds :: Owned(l, cls, d, i, i'))
    && (forall l | l in js :: l in ds)
  }

  lemma {:induction false} DefsAppend(a: seq<VmCmd>, b: seq<VmCmd>)
    ensures Defs(a + b) == Defs(a) + Defs(b)
    decreases |a|
  {
    if a == [] {
      assert a + b == b;
    } else {
      assert (a + b)[0] == a[0] && (a + b)[1..] == a[1..] + b;
      DefsAppend(a[1..], b);
      assert Defs(a + b) == DefOf(a[0]) + Defs(a[1..] + b);
    }
  }

  lemma {:induction false} JumpsAppend(a: seq<VmCmd>, b: seq<VmCmd>)
    ensures Jumps(a + b) == Jumps(a) + Jumps(b)
    decreases |a|
  {
    if a == [] {
      assert a + b == b;
    } else {
      assert (a + b)[0] == a[0] && (a + b)[1..] == a[1..] + b;
      JumpsAppend(a[1..], b);
      assert Jumps(a + b) == JumpOf(a[0]) + Jumps(a[1..] + b);
    }
  }

  /// Both at once.
  lemma Append(a: seq<VmCmd>, b: seq<VmCmd>)
    ensures Defs(a + b) == Defs(a) + Defs(b) && Jumps(a + b) == Jumps(a) + Jumps(b)
  {
    DefsAppend(a, b);
    JumpsAppend(a, b);
  }

  lemma One(x: VmCmd)
    ensures Defs([x]) == DefOf(x) && Jumps([x]) == JumpOf(x)
  {
    assert [x][1..] == [];
  }

  /// `not` and `if-goto l`.
  lemma Test(l: LabelName)
    ensures Defs([ArithCmd(NotOp), IfGotoCmd(l)]) == [] && Jumps([ArithCmd(NotOp), IfGotoCmd(l)]) == [l]
  {
    Two(ArithCmd(NotOp), IfGotoCmd(l));
  }

  /// `goto l0` and `label l1`.
  lemma Loop(l0: LabelName, l1: LabelName)
    ensures Defs([GotoCmd(l0), LabelCmd(l1)]) == [l1] && Jumps([GotoCmd(l0), LabelCmd(l1)]) == [l0]
  {
    Two(GotoCmd(l0), LabelCmd(l1));
  }

  /// `label l`.
  lemma Mark(l: LabelName)
    ensures Defs([LabelCmd(l)]) == [l] && Jumps([LabelCmd(l)]) == []
  {
    One(LabelCmd(l));
  }

  lemma Two(x: VmCmd, y: VmCmd)
    ensures Defs([x, y]) == DefOf(x) + DefOf(y) && Jumps([x, y]) == JumpOf(x) + JumpOf(y)
  {
    assert [x, y] == [x] + [y];
    Append([x], [y]);
    One(x);
    One(y);
  }

  lemma {:induction false} FlatNoLabels(c: seq<VmCmd>)
    requires Flat(c)
    ensures Defs(c) == [] && Jumps(c) == []
    decreases |c|
  {
    if c != [] {
      FlatNoLabels(c[1..]);
    }
  }

  lemma FlatAppend(a: seq<VmCmd>, b: seq<VmCmd>)
    requires Flat(a) && Flat(b)
    ensures Flat(a + b)
  {
  }

  // ------------------------------------------------------------ expression code is flat

  lemma {:induction false} AppendCharsFlat(s: string)
    ensures Flat(AppendChars(s))
    decreases |s|
  {
    if s != [] {
      AppendCharsFlat(s[1..]);
      FlatAppend([Constant(CharCode(s[0])), CallCmd("String", "appendChar", 2)], AppendChars(s[1..]));
    }
  }

  lemma {:induction false} TermFlat(sc: Scope, t: TermNode)
    ensures Flat(TermCode(sc, t))
    decreases t
  {
    match t
    case StrT(s) =>
      AppendCharsFlat(CString(s));
    case IndexT(n, e) =>
      ExprFlat(sc, e);
    case ParenT(e) =>
      ExprFlat(sc, e);
    case NegT(x) =>
      TermFlat(sc, x);
    case NotT(x) =>
      TermFlat(sc, x);
    case CallT(id1, member, args) =>
      CallFlat(sc, id1, member, args);
    case _ =>
  }

  lemma {:induction false} CallFlat(sc: Scope, id1: string, member: Option<string>, args: seq<ExprNode>)
    ensures Flat(CallCode(sc, id1, member, args))
    decreases args, 1
  {
    ArgsFlat(sc, args);
  }

  lemma {:induction false} ExprFlat(sc: Scope, e: ExprNode)
    ensures Flat(ExprCode(sc, e))
    decreases e
  {
    match e
    case Single(t) =>
      TermFlat(sc, t);
    case Binary(l, op, r) =>
      ExprFlat(sc, l);
      TermFlat(sc, r);
  }

  lemma {:induction false} ArgsFlat(sc: Scope, args: seq<ExprNode>)
    ensures Flat(ArgsCode(sc, args))
    decreases args, 0
  {
    if args != [] {
      ExprFlat(sc, args[0]);
      ArgsFlat(sc, args[1..]);
    }
  }

  // ------------------------------------------------------------ statement code

  lemma NoDupJoin(a: seq<LabelName>, b: seq<LabelName>)
    requires NoDup(a) && NoDup(b) && forall x | x in a :: x !in b
    ensures NoDup(a + b)
  {
    forall p, q | 0 <= p < q < |a + b| ensures (a + b)[p] != (a + b)[q] {
      if q < |a| {
        assert (a + b)[q] == a[q] && (a + b)[p] == a[p];
      } else if p >= |a| {
        assert (a + b)[q] == b[q - |a|] && (a + b)[p] == b[p - |a|];
      } else {
        assert (a + b)[q] == b[q - |a|] && (a + b)[p] == a[p];
        assert a[p] in a;
      }
    }
  }

  /// The labels of a while: `l0` and `l1` around those of the body.
  lemma WhileLabelSeqs(db: seq<LabelName>, jb: seq<LabelName>, cls: string, d: nat, i: nat, i1: nat)
    requires Labelled(db, jb, cls, d + 1, i + 1, i1)
    ensures var l0, l1 := LabelName(cls, i, d + 1, 0), LabelName(cls, i, d + 1, 1);
            Labelled([l0] + db + [l1], [l1] + jb + [l0], cls, d, i, i1)
  {
    var l0, l1 := LabelName(cls, i, d + 1, 0), LabelName(cls, i, d + 1, 1);
    NoDupJoin([l0], db);
    NoDupJoin([l0] + db, [l1]);
  }

  /// The labels of an if without an else-branch: those of the branch, then `l0`.
  lemma IfLabelSeqs(db: seq<LabelName>, jb: seq<LabelName>, cls: string, d: nat, i: nat, i1: nat)
    requires Labelled(db, jb, cls, d + 1, i + 1, i1)
    ensures var l0 := LabelName(cls, i, d + 1, 0);
            Labelled(db + [l0], [l0] + jb, cls, d, i, i1)
  {
    NoDupJoin(db, [LabelName(cls, i, d + 1, 0)]);
  }

  /// The labels of an if with an else-branch: the then-labels, `l0`, the
  /// else-labels and `l1`, the two branches numbered apart.
  lemma IfElseLabelSeqs(db: seq<LabelName>, jb: seq<LabelName>, de: seq<LabelName>, je: seq<LabelName>,
                        cls: string, d: nat, i: nat, i1: nat, i2: nat)
    requires Labelled(db, jb, cls, d + 1, i + 1, i1) && Labelled(de, je, cls, d + 1, i1, i2)
    ensures var l0, l1 := LabelName(cls, i, d + 1, 0), LabelName(cls, i, d + 1, 1);
            Labelled(db + [l0] + de + [l1], [l0] + jb + [l1] + je, cls, d, i, i2)
  {
    var l0, l1 := LabelName(cls, i, d + 1, 0), LabelName(cls, i, d + 1, 1);
    NoDupJoin(db, [l0]);
    NoDupJoin(db + [l0], de);
    NoDupJoin(db + [l0] + de, [l1]);
    ElseJumps(jb, db, l0, je, de, l1);
  }

  lemma ElseJumps(jb: seq<LabelName>, db: seq<LabelName>, l0: LabelName, je: seq<LabelName>, de: seq<LabelName>, l1: LabelName)
    requires (forall l | l in jb :: l in db) && (forall l | l in je :: l in de)
    ensures forall l | l in [l0] + jb + [l1] + je :: l in db + [l0] + de + [l1]
  {
  }

  /// The labels of two pieces of code numbered one after the other.
  lemma ListLabelSeqs(dc: seq<LabelName>, jc: seq<LabelName>, ds: seq<LabelName>, js: seq<LabelName>,
                      cls: string, d: nat, i: nat, i1: nat, i2: nat)
    requires Labelled(dc, jc, cls, d, i, i1) && Labelled(ds, js, cls, d, i1, i2)
    ensures Labelled(dc + ds, jc + js, cls, d, i, i2)
  {
    NoDupJoin(dc, ds);
  }

  lemma {:induction false} StmtLabels(sc: Scope, d: nat, i: nat, s: StmtNode)
    ensures WellLabelled(StmtCode(sc, d, i, s).0, sc.cls, d, i, StmtCode(sc, d, i, s).1)
    decreases s, 2
  {
    var (c, i') := StmtCode(sc, d, i, s);
    match s
    case LetS(n, v) =>
      ExprFlat(sc, v);
      FlatNoLabels(c);
    case LetIndexS(n, x, v) =>
      ExprFlat(sc, x);
      ExprFlat(sc, v);
      FlatNoLabels(c);
    case DoS(id1, member, args) =>
      CallFlat(sc, id1, member, args);
      FlatNoLabels(c);
    case ReturnS(None) =>
      FlatNoLabels(c);
    case ReturnS(Some(e)) =>
      ExprFlat(sc, e);
      FlatNoLabels(c);
    case WhileS(cond, body) =>
      var (b, i1) := StmtsCode(sc, d + 1, i + 1, body);
      WhileLabels(sc, d, i, s, b, i1);
    case IfS(cond, thenBody) =>
      var (b, i1) := StmtsCode(sc, d + 1, i + 1, thenBody);
      IfLabels(sc, d, i, s, b, i1);
    case IfElseS(cond, thenBody, elseBody) =>
      var (b, i1) := StmtsCode(sc, d + 1, i + 1, thenBody);
      var (e, i2) := StmtsCode(sc, d + 1, i1, elseBody);
      IfElseLabels(sc, d, i, s, b, i1, e, i2);
  }

  lemma {:induction false} WhileLabels(sc: Scope, d: nat, i: nat, s: StmtNode, b: seq<VmCmd>, i1: nat)
    requires s.WhileS? && (b, i1) == StmtsCode(sc, d + 1, i + 1, s.body)
    ensures var l0, l1 := LabelName(sc.cls, i, d + 1, 0), LabelName(sc.cls, i, d + 1, 1);
            WellLabelled([LabelCmd(l0)] + ExprCode(sc, s.cond) + [ArithCmd(NotOp), IfGotoCmd(l1)] + b + [GotoCmd(l0), LabelCmd(l1)],
                         sc.cls, d, i, i1)
    decreases s, 1
  {
    StmtsLabels(sc, d + 1, i + 1, s.body);
    ExprFlat(sc, s.cond);
    FlatNoLabels(ExprCode(sc, s.cond));
    WhileLabelsJoin(ExprCode(sc, s.cond), b, sc.cls, d, i, i1);
  }

  lemma WhileLabelsJoin(x: seq<VmCmd>, b: seq<VmCmd>, cls: string, d: nat, i: nat, i1: nat)
    requires Defs(x) == [] && Jumps(x) == [] && WellLabelled(b, cls, d + 1, i + 1, i1)
    ensures var l0, l1 := LabelName(cls, i, d + 1, 0), LabelName(cls, i, d + 1, 1);
            WellLabelled([LabelCmd(l0)] + x + [ArithCmd(NotOp), IfGotoCmd(l1)] + b + [GotoCmd(l0), LabelCmd(l1)], cls, d, i, i1)
  {
    var l0, l1 := LabelName(cls, i, d + 1, 0), LabelName(cls, i, d + 1, 1);
    WhileCode(x, b, l0, l1);
    WhileLabelSeqs(Defs(b), Jumps(b), cls, d, i, i1);
  }

  lemma WhileCode(x: seq<VmCmd>, b: seq<VmCmd>, l0: LabelName, l1: LabelName)
    requires Defs(x) == [] && Jumps(x) == []
    ensures var c := [LabelCmd(l0)] + x + [ArithCmd(NotOp), IfGotoCmd(l1)] + b + [GotoCmd(l0), LabelCmd(l1)];
            Defs(c) == [l0] + Defs(b) + [l1] && Jumps(c) == [l1] + Jumps(b) + [l0]
  {
    var c0 := [LabelCmd(l0)] + x;
    var c1 := c0 + [ArithCmd(NotOp), IfGotoCmd(l1)];
    Mark(l0);
    Test(l1);
    Loop(l0, l1);
    Append([LabelCmd(l0)], x);
    assert Defs(c0) == [l0] && Jumps(c0) == [];
    Append(c0, [ArithCmd(NotOp), IfGotoCmd(l1)]);
    assert Defs(c1) == [l0] && Jumps(c1) == [l1];
    Append(c1, b);
    assert Defs(c1 + b) == [l0] + Defs(b) && Jumps(c1 + b) == [l1] + Jumps(b);
    Append(c1 + b, [GotoCmd(l0), LabelCmd(l1)]);
  }

  lemma {:induction false} IfLabels(sc: Scope, d: nat, i: nat, s: StmtNode, b: seq<VmCmd>, i1: nat)
    requires s.IfS? && (b, i1) == StmtsCode(sc, d + 1, i + 1, s.thenBody)
    ensures var l0 := LabelName(sc.cls, i, d + 1, 0);
            WellLabelled(ExprCode(sc, s.cond) + [ArithCmd(NotOp), IfGotoCmd(l0)] + b + [LabelCmd(l0)], sc.cls, d, i, i1)
    decreases s, 1
  {
    StmtsLabels(sc, d + 1, i + 1, s.thenBody);
    ExprFlat(sc, s.cond);
    FlatNoLabels(ExprCode(sc, s.cond));
    IfLabelsJoin(ExprCode(sc, s.cond), b, sc.cls, d, i, i1);
  }

  lemma IfLabelsJoin(x: seq<VmCmd>, b: seq<VmCmd>, cls: string, d: nat, i: nat, i1: nat)
    requires Defs(x) == [] && Jumps(x) == [] && WellLabelled(b, cls, d + 1, i + 1, i1)
    ensures var l0 := LabelName(cls, i, d + 1, 0);
            WellLabelled(x + [ArithCmd(NotOp), IfGotoCmd(l0)] + b + [LabelCmd(l0)], cls, d, i, i1)
  {
    IfCode(x, b, LabelName(cls, i, d + 1, 0));
    IfLabelSeqs(Defs(b), Jumps(b), cls, d, i, i1);
  }

  lemma IfCode(x: seq<VmCmd>, b: seq<VmCmd>, l0: LabelName)
    requires Defs(x) == [] && Jumps(x) == []
    ensures var c := x + [ArithCmd(NotOp), IfGotoCmd(l0)] + b + [LabelCmd(l0)];
            Defs(c) == Defs(b) + [l0] && Jumps(c) == [l0] + Jumps(b)
  {
    var c1 := x + [ArithCmd(NotOp), IfGotoCmd(l0)];
    Test(l0);
    Mark(l0);
    Append(x, [ArithCmd(NotOp), IfGotoCmd(l0)]);
    assert Defs(c1) == [] && Jumps(c1) == [l0];
    Append(c1, b);
    assert Defs(c1 + b) == Defs(b) && Jumps(c1 + b) == [l0] + Jumps(b);
    Append(c1 + b, [LabelCmd(l0)]);
  }

  lemma {:induction false} IfElseLabels(sc: Scope, d: nat, i: nat, s: StmtNode, b: seq<VmCmd>, i1: nat, e: seq<VmCmd>, i2: nat)
    requires s.IfElseS? && (b, i1) == StmtsCode(sc, d + 1, i + 1, s.thenBody) && (e, i2) == StmtsCode(sc, d + 1, i1, s.elseBody)
    ensures var l0, l1 := LabelName(sc.cls, i, d + 1, 0), LabelName(sc.cls, i, d + 1, 1);
            WellLabelled(ExprCode(sc, s.cond) + [ArithCmd(NotOp), IfGotoCmd(l0)] + b + [GotoCmd(l1), LabelCmd(l0)] + e + [LabelCmd(l1)],
                         sc.cls, d, i, i2)
    decreases s, 1
  {
    StmtsLabels(sc, d + 1, i + 1, s.thenBody);
    StmtsLabels(sc, d + 1, i1, s.elseBody);
    ExprFlat(sc, s.cond);
    FlatNoLabels(ExprCode(sc, s.cond));
    IfElseLabelsJoin(ExprCode(sc, s.cond), b, e, sc.cls, d, i, i1, i2);
  }

  lemma IfElseLabelsJoin(x: seq<VmCmd>, b: seq<VmCmd>, e: seq<VmCmd>, cls: string, d: nat, i: nat, i1: nat, i2: nat)
    requires Defs(x) == [] && Jumps(x) == [] && WellLabelled(b, cls, d + 1, i + 1, i1) && WellLabelled(e, cls, d + 1, i1, i2)
    ensures var l0, l1 := LabelName(cls, i, d + 1, 0), LabelName(cls, i, d + 1, 1);
            WellLabelled(x + [ArithCmd(NotOp), IfGotoCmd(l0)] + b + [GotoCmd(l1), LabelCmd(l0)] + e + [LabelCmd(l1)], cls, d, i, i2)
  {
    IfElseCode(x, b, e, LabelName(cls, i, d + 1, 0), LabelName(cls, i, d + 1, 1));
    IfElseLabelSeqs(Defs(b), Jumps(b), Defs(e), Jumps(e), cls, d, i, i1, i2);
  }

  lemma IfElseCode(x: seq<VmCmd>, b: seq<VmCmd>, e: seq<VmCmd>, l0: LabelName, l1: LabelName)
    requires Defs(x) == [] && Jumps(x) == []
    ensures var c := x + [ArithCmd(NotOp), IfGotoCmd(l0)] + b + [GotoCmd(l1), LabelCmd(l0)] + e + [LabelCmd(l1)];
            Defs(c) == Defs(b) + [l0] + Defs(e) + [l1] && Jumps(c) == [l0] + Jumps(b) + [l1] + Jumps(e)
  {
    ThenCode(x, b, l0, l1);
    ElseCode(x + [ArithCmd(NotOp), IfGotoCmd(l0)] + b + [GotoCmd(l1), LabelCmd(l0)], e, l1);
  }

  lemma ThenCode(x: seq<VmCmd>, b: seq<VmCmd>, l0: LabelName, l1: LabelName)
    requires Defs(x) == [] && Jumps(x) == []
    ensures var c := x + [ArithCmd(NotOp), IfGotoCmd(l0)] + b + [GotoCmd(l1), LabelCmd(l0)];
            Defs(c) == Defs(b) + [l0] && Jumps(c) == [l0] + Jumps(b) + [l1]
  {
    var c1 := x + [ArithCmd(NotOp), IfGotoCmd(l0)];
    Test(l0);
    Loop(l1, l0);
    Append(x, [ArithCmd(NotOp), IfGotoCmd(l0)]);
    assert Defs(c1) == [] && Jumps(c1) == [l0];
    Append(c1, b);
    assert Defs(c1 + b) == Defs(b) && Jumps(c1 + b) == [l0] + Jumps(b);
    Append(c1 + b, [GotoCmd(l1), LabelCmd(l0)]);
  }

  lemma ElseCode(c2: seq<VmCmd>, e: seq<VmCmd>, l1: LabelName)
    ensures Defs(c2 + e + [LabelCmd(l1)]) == Defs(c2) + Defs(e) + [l1]
    ensures Jumps(c2 + e + [LabelCmd(l1)]) == Jumps(c2) + Jumps(e)
  {
    Mark(l1);
    Append(c2, e);
    Append(c2 + e, [LabelCmd(l1)]);
  }

  lemma {:induction false} StmtsLabels(sc: Scope, d: nat, i: nat, ss: seq<StmtNode>)
    ensures WellLabelled(StmtsCode(sc, d, i, ss).0, sc.cls, d, i, StmtsCode(sc, d, i, ss).1)
    decreases ss, 2
  {
    if ss != [] {
      var (c, i1) := StmtCode(sc, d, i, ss[0]);
      var (cs, i2) := StmtsCode(sc, d, i1, ss[1..]);
      StmtLabels(sc, d, i, ss[0]);
      StmtsLabels(sc, d, i1, ss[1..]);
      Append(c, cs);
      ListLabelSeqs(Defs(c), Jumps(c), Defs(cs), Jumps(cs), sc.cls, d, i, i1, i2);
    }
  }

  // ------------------------------------------------------------ the compiled output

  /// On tokens that spell the statements `ss`, `compStatements` appends
  /// code whose labels are distinct, belong to the class, are numbered
  /// from the `gotoInc` it starts with up to the one it leaves, and whose
  /// jumps all land on them; the depth it leaves is the one it found.
  lemma CompiledLabels(ts: seq<Token>, g: Gen, sc: Scope, ss: seq<StmtNode>) returns (c: seq<VmCmd>)
    requires StmtsAt(ts, g, sc, ss)
    ensures Statements(ts, g).out == g.out + c && Statements(ts, g).gotoDepth == g.gotoDepth
    ensures WellLabelled(c, g.className, g.gotoDepth, g.gotoInc, Statements(ts, g).gotoInc)
  {
    StmtsCompiles(ts, g, sc, ss);
    c := StmtsCode(sc, g.gotoDepth, g.gotoInc, ss).0;
    StmtsLabels(sc, g.gotoDepth, g.gotoInc, ss);
  }

  /// Distinct labels of one class print as distinct `label` lines.
  lemma LabelLinesDistinct(c: seq<VmCmd>, cls: string, d: nat, lo: nat, hi: nat, p: nat, q: nat)
    requires WellLabelled(c, cls, d, lo, hi) && p < q < |Defs(c)|
    ensures Render(LabelCmd(Defs(c)[p])) != Render(LabelCmd(Defs(c)[q]))
  {
    var a, b := Defs(c)[p], Defs(c)[q];
    assert a in Defs(c) && b in Defs(c);
    if Render(LabelCmd(a)) == Render(LabelCmd(b)) {
      PrefixCancel("label ", LabelText(a), LabelText(b));
      LabelTextInjective(a, b);
    }
  }
}

/// What the statement productions of src/compiler.c are proved to do: on
/// the tokens of a well-formed statement sequence `compStatements` prints
/// the reference code of `JackAst.StmtsCode` and leaves the label counter
/// where the reference code leaves it.
module JackStmtProps {
  import opened CLib
  import opened JackTokens
  import opened JackSymbols
  import opened JackVm
  import opened JackEngine
  import opened JackAst
  import opened JackEngineProps

  /// The keyword a statement starts with.
  function StmtKeyword(s: StmtNode): Keyword
  {
    match s
    case LetS(_, _) => Let
    case LetIndexS(_, _, _) => Let
    case DoS(_, _, _) => Do
    case ReturnS(_) => Return
    case WhileS(_, _) => While
    case IfS(_, _) => If
    case IfElseS(_, _, _) => If
  }

  lemma StmtLead(s: StmtNode)
    ensures |StmtLexemes(s)| >= 2 && StmtLexemes(s)[0] == KeywordLex(StmtKeyword(s))
  {
  }

  /// A token that ends a statement sequence: none that starts a statement,
  /// and no `else`, which would attach to an `if` before it.
  predicate Stops(ts: seq<Token>, q: nat)
  {
    !Kw(ts, q, Do) && !Kw(ts, q, Let) && !Kw(ts, q, If) && !Kw(ts, q, While)
    && !Kw(ts, q, Return) && !Kw(ts, q, Else)
  }

  /// The state after the statement `s`: its tokens read, its reference
  /// code printed, and the label counter moved past its while/if
  /// statements.
  function Ran(g: Gen, sc: Scope, s: StmtNode): Gen
  {
    var (c, i) := StmtCode(sc, g.gotoDepth, g.gotoInc, s);
    g.(pos := g.pos + |StmtLexemes(s)|, out := g.out + c, gotoInc := i)
  }

  /// The same for a sequence of statements.
  function RanAll(g: Gen, sc: Scope, ss: seq<StmtNode>): Gen
  {
    var (c, i) := StmtsCode(sc, g.gotoDepth, g.gotoInc, ss);
    g.(pos := g.pos + |StmtsLexemes(ss)|, out := g.out + c, gotoInc := i)
  }

  /// The tokens at `g` spell the well-formed statement `s`, and no `else`
  /// follows it.
  ghost predicate StmtAt(ts: seq<Token>, g: Gen, sc: Scope, s: StmtNode)
  {
    Fits(ts, g) && Sees(g, sc) && StmtOk(sc, s)
    && Spells(ts, g.pos, StmtLexemes(s)) && !Kw(ts, g.pos + |StmtLexemes(s)|, Else)
  }

  /// The tokens at `g` spell the well-formed statements `ss`, and a token
  /// that stops the sequence follows them.
  ghost predicate StmtsAt(ts: seq<Token>, g: Gen, sc: Scope, ss: seq<StmtNode>)
  {
    Fits(ts, g) && Sees(g, sc) && StmtsOk(sc, ss)
    && Spells(ts, g.pos, StmtsLexemes(ss)) && Stops(ts, g.pos + |StmtsLexemes(ss)|)
  }

  /// The `')' '{' statements` of a while or an if at `x`.
  ghost predicate BlockAt(ts: seq<Token>, x: Gen, sc: Scope, body: seq<StmtNode>)
  {
    Fits(ts, x) && Sees(x, sc) && Sym(ts, x.pos, ')') && Sym(ts, x.pos + 1, '{')
    && StmtsAt(ts, Skip(x, 2), sc, body)
  }

  /// The `'=' expression ';'` of a let at `b`.
  ghost predicate ValueAt(ts: seq<Token>, b: Gen, sc: Scope, v: ExprNode)
  {
    Fits(ts, b) && Sees(b, sc) && Sym(ts, b.pos, '=') && ExprAlone(ts, Skip(b, 1), sc, v)
    && Sym(ts, Skip(b, 1).pos + |ExprLexemes(v)|, ';')
  }

  // ------------------------------------------------------------ sequences

  /// `compStatements` on the tokens of a well-formed statement sequence
  /// prints its reference code and numbers its while/if statements as the
  /// reference code does.
  lemma StmtsCompiles(ts: seq<Token>, g: Gen, sc: Scope, ss: seq<StmtNode>)
    requires StmtsAt(ts, g, sc, ss)
    ensures Statements(ts, g) == RanAll(g, sc, ss)
    decreases ss, 2
  {
    if ss == [] {
      assert g.out + [] == g.out;
    } else {
      SeqHead(ts, g, sc, ss);
      SeqTail(ts, g, sc, ss);
      SeqRan(g, sc, ss);
      StmtStep(ts, g, sc, ss[0]);
      StmtsCompiles(ts, Ran(g, sc, ss[0]), sc, ss[1..]);
    }
  }

  /// The tokens of a sequence start with those of its first statement.
  lemma SeqHead(ts: seq<Token>, g: Gen, sc: Scope, ss: seq<StmtNode>)
    requires StmtsAt(ts, g, sc, ss) && ss != []
    ensures StmtAt(ts, g, sc, ss[0])
  {
    var a, b := StmtLexemes(ss[0]), StmtsLexemes(ss[1..]);
    SpellsSplit(ts, g.pos, a, b);
    if ss[1..] != [] {
      assert ss[1..][0] == ss[1];
      StmtLead(ss[1]);
      SpellsAt(ts, g.pos + |a|, b, 0);
    }
  }

  /// After the first statement the tokens spell the rest of the sequence.
  lemma SeqTail(ts: seq<Token>, g: Gen, sc: Scope, ss: seq<StmtNode>)
    requires StmtsAt(ts, g, sc, ss) && ss != []
    ensures StmtsAt(ts, Ran(g, sc, ss[0]), sc, ss[1..])
  {
    var a, b := StmtLexemes(ss[0]), StmtsLexemes(ss[1..]);
    SpellsSplit(ts, g.pos, a, b);
    SpellsEnd(ts, g.pos, a);
  }

  /// The code of a sequence: that of its first statement, then the rest's.
  lemma SeqRan(g: Gen, sc: Scope, ss: seq<StmtNode>)
    requires ss != []
    ensures RanAll(Ran(g, sc, ss[0]), sc, ss[1..]) == RanAll(g, sc, ss)
  {
    var (c, i1) := StmtCode(sc, g.gotoDepth, g.gotoInc, ss[0]);
    var (cs, i2) := StmtsCode(sc, g.gotoDepth, i1, ss[1..]);
    assert g.out + c + cs == g.out + (c + cs);
  }

  /// One statement: `compStatements` dispatches on its keyword and goes on
  /// after it.
  lemma StmtStep(ts: seq<Token>, g: Gen, sc: Scope, s: StmtNode)
    requires StmtAt(ts, g, sc, s)
    ensures var z := Ran(g, sc, s); Fits(ts, z) && Statements(ts, g) == Statements(ts, z)
    decreases s, 3
  {
    StmtKw(ts, g, sc, s);
    match s
    case LetS(_, _) => LetCompiles(ts, g, sc, s); Dispatch(ts, g, Let);
    case LetIndexS(_, _, _) => LetIndexCompiles(ts, g, sc, s); Dispatch(ts, g, Let);
    case DoS(_, _, _) => DoCompiles(ts, g, sc, s); Dispatch(ts, g, Do);
    case ReturnS(_) => ReturnCompiles(ts, g, sc, s); Dispatch(ts, g, Return);
    case WhileS(_, _) => WhileCompiles(ts, g, sc, s); Dispatch(ts, g, While);
    case IfS(_, _) => IfCompiles(ts, g, sc, s); Dispatch(ts, g, If);
    case IfElseS(_, _, _) => IfElseCompiles(ts, g, sc, s); Dispatch(ts, g, If);
  }

  lemma StmtKw(ts: seq<Token>, g: Gen, sc: Scope, s: StmtNode)
    requires StmtAt(ts, g, sc, s)
    ensures Kw(ts, g.pos, StmtKeyword(s))
  {
    StmtLead(s);
    SpellsAt(ts, g.pos, StmtLexemes(s), 0);
  }

  /// `compStatements` on a statement keyword: the production of that
  /// keyword, then the statements after it.
  lemma Dispatch(ts: seq<Token>, g: Gen, k: Keyword)
    requires Fits(ts, g) && Kw(ts, g.pos, k) && k in {Do, Let, If, While, Return}
    ensures Fits(ts, Skip(g, 1))
    ensures k == Do ==> Statements(ts, g) == Statements(ts, DoStatement(ts, Skip(g, 1)))
    ensures k == Let ==> Statements(ts, g) == Statements(ts, LetStatement(ts, Skip(g, 1)))
    ensures k == If ==> Statements(ts, g) == Statements(ts, IfStatement(ts, Skip(g, 1)))
    ensures k == While ==> Statements(ts, g) == Statements(ts, WhileStatement(ts, Skip(g, 1)))
    ensures k == Return ==> Statements(ts, g) == Statements(ts, ReturnStatement(ts, Skip(g, 1)))
  {
  }

  // ------------------------------------------------------------ let

  /// `compLet` on the tokens after `let` of a well-formed `let x = e;`.
  lemma LetCompiles(ts: seq<Token>, g: Gen, sc: Scope, s: StmtNode)
    requires StmtAt(ts, g, sc, s) && s.LetS?
    ensures Fits(ts, Skip(g, 1)) && LetStatement(ts, Skip(g, 1)) == Ran(g, sc, s)
  {
    var b := LetParts(ts, g, sc, s);
    var sym := Find(sc, s.name).value;
    var store := [PopCmd(Segment(sym.kind), sym.idx)];
    LetValueCompiles(ts, b, sc, s.value, store);
    LetEngine(ts, Skip(g, 1), sym, Skip(Emit(After(Skip(b, 1), |ExprLexemes(s.value)|, ExprCode(sc, s.value)), store), 1));
  }

  /// The same for `let x[e1] = e2;`.
  lemma LetIndexCompiles(ts: seq<Token>, g: Gen, sc: Scope, s: StmtNode)
    requires StmtAt(ts, g, sc, s) && s.LetIndexS?
    ensures Fits(ts, Skip(g, 1)) && LetStatement(ts, Skip(g, 1)) == Ran(g, sc, s)
  {
    var a, b := LetIndexParts(ts, g, sc, s);
    LetIndexRun(ts, Skip(g, 1), sc, s, a, b);
  }

  /// `compLet` of an array element over the pieces `LetIndexParts` finds.
  lemma LetIndexRun(ts: seq<Token>, k: Gen, sc: Scope, s: StmtNode, a: Gen, b: Gen)
    requires s.LetIndexS? && Fits(ts, k) && Ident(ts, k.pos) && Name(ts, k.pos) == s.name
    requires Resolve(k, s.name) == Find(sc, s.name) && Find(sc, s.name).Some? && Sym(ts, k.pos + 1, '[')
    requires a == At(k, k.pos + 2) && ExprAlone(ts, a, sc, s.index)
    requires var sym := Find(sc, s.name).value;
             var m := Emit(After(a, |ExprLexemes(s.index)|, ExprCode(sc, s.index)), [PushCmd(KindName(sym.kind), sym.idx), Arith(AddOp)]);
             Sym(ts, m.pos, ']') && b == Skip(m, 1)
    requires ValueAt(ts, b, sc, s.value)
    ensures LetStatement(ts, k) == Skip(Emit(After(Skip(b, 1), |ExprLexemes(s.value)|, ExprCode(sc, s.value)), ARRAY_STORE), 1)
  {
    var sym := Find(sc, s.name).value;
    ExpressionCompiles(ts, a, sc, s.index);
    LetValueCompiles(ts, b, sc, s.value, ARRAY_STORE);
    LetIndexEngine(ts, k, sym, Emit(After(a, |ExprLexemes(s.index)|, ExprCode(sc, s.index)), [PushCmd(KindName(sym.kind), sym.idx), Arith(AddOp)]),
                   Skip(Emit(After(Skip(b, 1), |ExprLexemes(s.value)|, ExprCode(sc, s.value)), ARRAY_STORE), 1));
  }

  /// `compLet` once the variable and the value are known.
  lemma LetEngine(ts: seq<Token>, k: Gen, sym: Symbol, r: Gen)
    requires Fits(ts, k) && Ident(ts, k.pos) && Resolve(k, Name(ts, k.pos)) == Some(sym) && !Sym(ts, k.pos + 1, '[')
    requires Fits(ts, At(k, k.pos + 1)) && LetValue(ts, At(k, k.pos + 1), [PopCmd(Segment(sym.kind), sym.idx)]) == r && !r.errno
    ensures LetStatement(ts, k) == r
  {
  }

  /// `compLet` of an array element once the variable, the index and the
  /// value are known.
  lemma LetIndexEngine(ts: seq<Token>, k: Gen, sym: Symbol, m: Gen, r: Gen)
    requires Fits(ts, k) && Ident(ts, k.pos) && Resolve(k, Name(ts, k.pos)) == Some(sym) && Sym(ts, k.pos + 1, '[')
    requires Fits(ts, At(k, k.pos + 2)) && m == Emit(Expression(ts, At(k, k.pos + 2)).0, [PushCmd(KindName(sym.kind), sym.idx), Arith(AddOp)])
    requires Sym(ts, m.pos, ']') && Fits(ts, Skip(m, 1)) && LetValue(ts, Skip(m, 1), ARRAY_STORE) == r && !r.errno
    ensures LetStatement(ts, k) == r
  {
  }

  lemma LetValueCompiles(ts: seq<Token>, b: Gen, sc: Scope, v: ExprNode, store: seq<VmCmd>)
    requires ValueAt(ts, b, sc, v)
    ensures LetValue(ts, b, store) == Skip(Emit(After(Skip(b, 1), |ExprLexemes(v)|, ExprCode(sc, v)), store), 1)
  {
    ExpressionCompiles(ts, Skip(b, 1), sc, v);
  }

  /// The parts of `let x = e;`.
  lemma LetParts(ts: seq<Token>, g: Gen, sc: Scope, s: StmtNode) returns (b: Gen)
    requires StmtAt(ts, g, sc, s) && s.LetS?
    ensures Fits(ts, Skip(g, 1)) && Ident(ts, Skip(g, 1).pos) && Name(ts, Skip(g, 1).pos) == s.name
    ensures Resolve(Skip(g, 1), s.name) == Find(sc, s.name) && Find(sc, s.name).Some? && !Sym(ts, Skip(g, 1).pos + 1, '[')
    ensures b == At(Skip(g, 1), Skip(g, 1).pos + 1) && ValueAt(ts, b, sc, s.value)
    ensures var sym := Find(sc, s.name).value;
            Skip(Emit(After(Skip(b, 1), |ExprLexemes(s.value)|, ExprCode(sc, s.value)), [PopCmd(Segment(sym.kind), sym.idx)]), 1)
            == Ran(g, sc, s)
  {
    var p, ls, vs := g.pos, StmtLexemes(s), ExprLexemes(s.value);
    var head := [KeywordLex(Let), IdentifierLex(s.name), SymbolLex('=')];
    SpellsSplit(ts, p, head + vs, [SymbolLex(';')]);
    SpellsSplit(ts, p, head, vs);
    SpellsAt(ts, p, ls, 1);
    SpellsAt(ts, p, ls, 2);
    SpellsAt(ts, p, ls, 3 + |vs|);
    b := At(Skip(g, 1), p + 2);
    var sym := Find(sc, s.name).value;
    var c, st := ExprCode(sc, s.value), [PopCmd(Segment(sym.kind), sym.idx)];
    assert g.out + c + st == g.out + (c + st);
  }

  /// The parts of `let x[e1] = e2;`.
  lemma LetIndexParts(ts: seq<Token>, g: Gen, sc: Scope, s: StmtNode) returns (a: Gen, b: Gen)
    requires StmtAt(ts, g, sc, s) && s.LetIndexS?
    ensures Fits(ts, Skip(g, 1)) && Ident(ts, Skip(g, 1).pos) && Name(ts, Skip(g, 1).pos) == s.name
    ensures Resolve(Skip(g, 1), s.name) == Find(sc, s.name) && Find(sc, s.name).Some? && Sym(ts, Skip(g, 1).pos + 1, '[')
    ensures a == At(Skip(g, 1), Skip(g, 1).pos + 2) && ExprAlone(ts, a, sc, s.index)
    ensures var sym := Find(sc, s.name).value;
            var m := Emit(After(a, |ExprLexemes(s.index)|, ExprCode(sc, s.index)), [PushCmd(KindName(sym.kind), sym.idx), Arith(AddOp)]);
            Sym(ts, m.pos, ']') && b == Skip(m, 1)
    ensures ValueAt(ts, b, sc, s.value)
    ensures Skip(Emit(After(Skip(b, 1), |ExprLexemes(s.value)|, ExprCode(sc, s.value)), ARRAY_STORE), 1) == Ran(g, sc, s)
  {
    var p, xs, vs := g.pos, ExprLexemes(s.index), ExprLexemes(s.value);
    var head := [KeywordLex(Let), IdentifierLex(s.name), SymbolLex('[')];
    var mid := [SymbolLex(']'), SymbolLex('=')];
    a := At(Skip(g, 1), Skip(g, 1).pos + 2);
    var sym := Find(sc, s.name).value;
    var addr := [PushCmd(KindName(sym.kind), sym.idx), Arith(AddOp)];
    var m := Emit(After(a, |xs|, ExprCode(sc, s.index)), addr);
    b := Skip(m, 1);
    Split5(ts, p, head, xs, mid, vs, [SymbolLex(';')], a.pos, m.pos, Skip(b, 1).pos, Skip(b, 1).pos + |vs|);
    Tok3(ts, p, head);
    Tok2(ts, m.pos, mid);
    Tok1(ts, Skip(b, 1).pos + |vs|, SymbolLex(';'));
    ExprBefore(ts, a, sc, s.index, m.pos);
    ValueFrom(ts, b, sc, s.value);
    LetIndexShape(g, sc, s, a, b);
  }

  lemma LetIndexShape(g: Gen, sc: Scope, s: StmtNode, a: Gen, b: Gen)
    requires s.LetIndexS? && Find(sc, s.name).Some? && a == At(Skip(g, 1), Skip(g, 1).pos + 2)
    requires var sym := Find(sc, s.name).value;
             b == Skip(Emit(After(a, |ExprLexemes(s.index)|, ExprCode(sc, s.index)), [PushCmd(KindName(sym.kind), sym.idx), Arith(AddOp)]), 1)
    ensures Skip(Emit(After(Skip(b, 1), |ExprLexemes(s.value)|, ExprCode(sc, s.value)), ARRAY_STORE), 1) == Ran(g, sc, s)
  {
    var sym := Find(sc, s.name).value;
    var addr := [PushCmd(KindName(sym.kind), sym.idx), Arith(AddOp)];
    var cx, cv := ExprCode(sc, s.index), ExprCode(sc, s.value);
    assert g.out + cx + addr + cv + ARRAY_STORE == g.out + (cx + addr + cv + ARRAY_STORE);
  }

  // ------------------------------------------------------------ spelling in pieces

  lemma Split3(ts: seq<Token>, p: nat, a: seq<Lexeme>, b: seq<Lexeme>, c: seq<Lexeme>, q1: nat, q2: nat)
    requires Spells(ts, p, a + b + c) && q1 == p + |a| && q2 == q1 + |b|
    ensures Spells(ts, p, a) && Spells(ts, q1, b) && Spells(ts, q2, c)
  {
    SpellsSplit(ts, p, a + b, c);
    SpellsSplit(ts, p, a, b);
  }

  lemma Split4(ts: seq<Token>, p: nat, a: seq<Lexeme>, b: seq<Lexeme>, c: seq<Lexeme>, d: seq<Lexeme>, q1: nat, q2: nat, q3: nat)
    requires Spells(ts, p, a + b + c + d)
    requires q1 == p + |a| && q2 == q1 + |b| && q3 == q2 + |c|
    ensures Spells(ts, p, a) && Spells(ts, q1, b) && Spells(ts, q2, c) && Spells(ts, q3, d)
  {
    SpellsSplit(ts, p, a + b + c, d);
    Split3(ts, p, a, b, c, q1, q2);
  }

  lemma Split5(ts: seq<Token>, p: nat, a: seq<Lexeme>, b: seq<Lexeme>, c: seq<Lexeme>, d: seq<Lexeme>, e: seq<Lexeme>,
               q1: nat, q2: nat, q3: nat, q4: nat)
    requires Spells(ts, p, a + b + c + d + e)
    requires q1 == p + |a| && q2 == q1 + |b| && q3 == q2 + |c| && q4 == q3 + |d|
    ensures Spells(ts, p, a) && Spells(ts, q1, b) && Spells(ts, q2, c) && Spells(ts, q3, d) && Spells(ts, q4, e)
  {
    SpellsSplit(ts, p, a + b + c + d, e);
    SpellsSplit(ts, p, a + b + c, d);
    Split3(ts, p, a, b, c, q1, q2);
  }

  lemma Tok1(ts: seq<Token>, q: nat, x: Lexeme)
    requires Spells(ts, q, [x])
    ensures q < |ts| && ts[q].lex == x
  {
    SpellsAt(ts, q, [x], 0);
  }

  lemma Tok2(ts: seq<Token>, q: nat, ls: seq<Lexeme>)
    requires Spells(ts, q, ls) && |ls| == 2
    ensures q + 1 < |ts| && ts[q].lex == ls[0] && ts[q + 1].lex == ls[1]
  {
    SpellsAt(ts, q, ls, 0);
    SpellsAt(ts, q, ls, 1);
  }

  lemma Tok3(ts: seq<Token>, q: nat, ls: seq<Lexeme>)
    requires Spells(ts, q, ls) && |ls| == 3
    ensures q + 2 < |ts| && ts[q].lex == ls[0] && ts[q + 1].lex == ls[1] && ts[q + 2].lex == ls[2]
  {
    SpellsAt(ts, q, ls, 0);
    SpellsAt(ts, q, ls, 1);
    SpellsAt(ts, q, ls, 2);
  }

  // ------------------------------------------------------------ do

  /// `compDo` on the tokens after `do` of a well-formed do statement.
  lemma DoCompiles(ts: seq<Token>, g: Gen, sc: Scope, s: StmtNode)
    requires StmtAt(ts, g, sc, s) && s.DoS?
    ensures Fits(ts, Skip(g, 1)) && DoStatement(ts, Skip(g, 1)) == Ran(g, sc, s)
  {
    DoParts(ts, g, sc, s);
    CallCompiles(ts, Skip(g, 1), sc, s.target, s.member, s.args);
  }

  lemma DoParts(ts: seq<Token>, g: Gen, sc: Scope, s: StmtNode)
    requires StmtAt(ts, g, sc, s) && s.DoS?
    ensures CallAt(ts, Skip(g, 1), sc, s.target, s.member, s.args)
    ensures Sym(ts, Skip(g, 1).pos + |CallLexemes(s.target, s.member, s.args)|, ';')
    ensures Skip(Emit(After(Skip(g, 1), |CallLexemes(s.target, s.member, s.args)|, CallCode(sc, s.target, s.member, s.args)),
                      [PopCmd("temp", 0)]), 1)
            == Ran(g, sc, s)
  {
    var p, ls, cl := g.pos, StmtLexemes(s), CallLexemes(s.target, s.member, s.args);
    SpellsSplit(ts, p, [KeywordLex(Do)] + cl, [SymbolLex(';')]);
    SpellsSplit(ts, p, [KeywordLex(Do)], cl);
    SpellsAt(ts, p, ls, 1 + |cl|);
    var c := CallCode(sc, s.target, s.member, s.args);
    assert g.out + c + [PopCmd("temp", 0)] == g.out + (c + [PopCmd("temp", 0)]);
  }

  // ------------------------------------------------------------ return

  /// `compReturn` on the tokens after `return` of a well-formed return
  /// statement.
  lemma ReturnCompiles(ts: seq<Token>, g: Gen, sc: Scope, s: StmtNode)
    requires StmtAt(ts, g, sc, s) && s.ReturnS?
    ensures Fits(ts, Skip(g, 1)) && ReturnStatement(ts, Skip(g, 1)) == Ran(g, sc, s)
  {
    match s.result
    case None => ReturnNoneCompiles(ts, g, sc, s);
    case Some(e) =>
      if e == Single(ThisT) {
        ReturnThisCompiles(ts, g, sc, s);
      } else {
        ReturnExprCompiles(ts, g, sc, s, e);
      }
  }

  /// `return;`.
  lemma ReturnNoneCompiles(ts: seq<Token>, g: Gen, sc: Scope, s: StmtNode)
    requires StmtAt(ts, g, sc, s) && s == ReturnS(None)
    ensures Fits(ts, Skip(g, 1)) && ReturnStatement(ts, Skip(g, 1)) == Ran(g, sc, s)
  {
    ReturnNoneParts(ts, g, sc, s);
  }

  /// `return this;`.
  lemma ReturnThisCompiles(ts: seq<Token>, g: Gen, sc: Scope, s: StmtNode)
    requires StmtAt(ts, g, sc, s) && s == ReturnS(Some(Single(ThisT)))
    ensures Fits(ts, Skip(g, 1)) && ReturnStatement(ts, Skip(g, 1)) == Ran(g, sc, s)
  {
    ReturnThisParts(ts, g, sc, s);
  }

  /// `return e;` for any other expression.
  lemma ReturnExprCompiles(ts: seq<Token>, g: Gen, sc: Scope, s: StmtNode, e: ExprNode)
    requires StmtAt(ts, g, sc, s) && s == ReturnS(Some(e)) && e != Single(ThisT)
    ensures Fits(ts, Skip(g, 1)) && ReturnStatement(ts, Skip(g, 1)) == Ran(g, sc, s)
  {
    ReturnExprParts(ts, g, sc, s, e);
    ReturnExprRan(g, sc, s, e);
    ExpressionCompiles(ts, Skip(g, 1), sc, e);
    ReturnExprEngine(ts, Skip(g, 1), After(Skip(g, 1), |ExprLexemes(e)|, ExprCode(sc, e)));
  }

  /// `compReturn` once the expression's state is known.
  lemma ReturnExprEngine(ts: seq<Token>, k: Gen, x: Gen)
    requires Fits(ts, k) && !Sym(ts, k.pos, ';') && !Kw(ts, k.pos, This)
    requires Expression(ts, k).0 == x && Sym(ts, x.pos, ';') && !x.errno
    ensures ReturnStatement(ts, k) == Skip(Emit(x, [ReturnCmd]), 1)
  {
  }

  /// The parts of `return;`.
  lemma ReturnNoneParts(ts: seq<Token>, g: Gen, sc: Scope, s: StmtNode)
    requires StmtAt(ts, g, sc, s) && s == ReturnS(None)
    ensures Fits(ts, Skip(g, 1)) && Sym(ts, Skip(g, 1).pos, ';')
    ensures Skip(Emit(Skip(g, 1), [Constant(0), ReturnCmd]), 1) == Ran(g, sc, s)
  {
    Tok2(ts, g.pos, StmtLexemes(s));
  }

  /// The parts of `return this;`.
  lemma ReturnThisParts(ts: seq<Token>, g: Gen, sc: Scope, s: StmtNode)
    requires StmtAt(ts, g, sc, s) && s == ReturnS(Some(Single(ThisT)))
    ensures Fits(ts, Skip(g, 1)) && !Sym(ts, Skip(g, 1).pos, ';') && Kw(ts, Skip(g, 1).pos, This)
    ensures Sym(ts, Skip(g, 1).pos + 1, ';')
    ensures Skip(Skip(Emit(Skip(g, 1), [PushCmd("pointer", 0), ReturnCmd]), 1), 1) == Ran(g, sc, s)
  {
    assert StmtLexemes(s) == [KeywordLex(Return), KeywordLex(This), SymbolLex(';')];
    Tok3(ts, g.pos, StmtLexemes(s));
  }

  /// The tokens of `return e;` for an expression other than `this`.
  lemma ReturnExprParts(ts: seq<Token>, g: Gen, sc: Scope, s: StmtNode, e: ExprNode)
    requires StmtAt(ts, g, sc, s) && s == ReturnS(Some(e)) && e != Single(ThisT)
    ensures Fits(ts, Skip(g, 1)) && !Sym(ts, Skip(g, 1).pos, ';') && !Kw(ts, Skip(g, 1).pos, This)
    ensures ExprAlone(ts, Skip(g, 1), sc, e)
    ensures Sym(ts, Skip(g, 1).pos + |ExprLexemes(e)|, ';')
  {
    var es := ExprLexemes(e);
    assert StmtLexemes(s) == [KeywordLex(Return)] + es + [SymbolLex(';')];
    FirstLexeme(e);
    NotThis(FirstTerm(e));
    ReturnExprTokens(ts, g.pos, es);
  }

  /// The tokens of `return`, an expression and `;`.
  lemma ReturnExprTokens(ts: seq<Token>, p: nat, es: seq<Lexeme>)
    requires Spells(ts, p, [KeywordLex(Return)] + es + [SymbolLex(';')]) && es != []
    ensures Spells(ts, p + 1, es) && p + 1 + |es| < |ts| && ts[p + 1 + |es|].lex == SymbolLex(';')
    ensures p + 1 < |ts| && ts[p + 1].lex == es[0]
  {
    Split3(ts, p, [KeywordLex(Return)], es, [SymbolLex(';')], p + 1, p + 1 + |es|);
    Tok1(ts, p + 1 + |es|, SymbolLex(';'));
    SpellsAt(ts, p + 1, es, 0);
  }

  /// The code of `return e;`: the expression's code and `return`.
  lemma ReturnExprRan(g: Gen, sc: Scope, s: StmtNode, e: ExprNode)
    requires s == ReturnS(Some(e))
    ensures Skip(Emit(After(Skip(g, 1), |ExprLexemes(e)|, ExprCode(sc, e)), [ReturnCmd]), 1) == Ran(g, sc, s)
  {
    var c := ExprCode(sc, e);
    assert g.out + c + [ReturnCmd] == g.out + (c + [ReturnCmd]);
  }

  /// An expression starts with the first lexeme of its leftmost term.
  lemma {:induction false} FirstLexeme(e: ExprNode)
    ensures |TermLexemes(FirstTerm(e))| > 0 && |ExprLexemes(e)| > 0
    ensures ExprLexemes(e)[0] == TermLexemes(FirstTerm(e))[0]
  {
    TermLexemesNonEmpty(FirstTerm(e));
    if e.Binary? {
      FirstLexeme(e.left);
    }
  }

  lemma TermLexemesNonEmpty(t: TermNode)
    ensures |TermLexemes(t)| > 0
  {
  }

  /// Only `this` starts with the keyword `this`.
  lemma NotThis(t: TermNode)
    requires t != ThisT
    ensures |TermLexemes(t)| > 0 && TermLexemes(t)[0] != KeywordLex(This) && TermLexemes(t)[0] != SymbolLex(';')
  {
    TermLexemesNonEmpty(t);
  }

  // ------------------------------------------------------------ while and if

  /// `compWhile` and `compIf` on `e ) { body }` at `w`: the condition's
  /// code, the conditional jump to `l`, and the block's code.
  lemma CondBlock(ts: seq<Token>, w: Gen, sc: Scope, c: ExprNode, body: seq<StmtNode>, x: Gen, l: LabelName)
    requires Fits(ts, w) && Sees(w, sc) && ExprOk(sc, c) && StmtsOk(sc, body)
    requires Spells(ts, w.pos, ExprLexemes(c) + [SymbolLex(')'), SymbolLex('{')] + StmtsLexemes(body) + [SymbolLex('}')])
    requires x == Emit(After(w, |ExprLexemes(c)|, ExprCode(sc, c)), [Arith(NotOp), IfGotoCmd(l)])
    ensures x == Emit(Expression(ts, w).0, [Arith(NotOp), IfGotoCmd(l)])
    ensures Fits(ts, x) && Block(ts, x) == (RanAll(Skip(x, 2), sc, body), true)
    ensures Fits(ts, RanAll(Skip(x, 2), sc, body)) && Sees(RanAll(Skip(x, 2), sc, body), sc)
    ensures Sym(ts, RanAll(Skip(x, 2), sc, body).pos, '}') && RanAll(Skip(x, 2), sc, body).gotoDepth == w.gotoDepth
    ensures RanAll(Skip(x, 2), sc, body).pos + 1 == w.pos + |ExprLexemes(c)| + |StmtsLexemes(body)| + 3
    decreases body, 4
  {
    CondParts(ts, w, sc, c, body, x, l);
    ExpressionCompiles(ts, w, sc, c);
    BlockCompiles(ts, x, sc, body);
  }

  /// `e ) { body }` at `w`: the condition alone, and the block after its
  /// code and the conditional jump to `l`.
  lemma CondParts(ts: seq<Token>, w: Gen, sc: Scope, c: ExprNode, body: seq<StmtNode>, x: Gen, l: LabelName)
    requires Fits(ts, w) && Sees(w, sc) && ExprOk(sc, c) && StmtsOk(sc, body)
    requires Spells(ts, w.pos, ExprLexemes(c) + [SymbolLex(')'), SymbolLex('{')] + StmtsLexemes(body) + [SymbolLex('}')])
    requires x == Emit(After(w, |ExprLexemes(c)|, ExprCode(sc, c)), [Arith(NotOp), IfGotoCmd(l)])
    ensures ExprAlone(ts, w, sc, c) && BlockAt(ts, x, sc, body)
    ensures Fits(ts, RanAll(Skip(x, 2), sc, body)) && Sees(RanAll(Skip(x, 2), sc, body), sc)
    ensures Sym(ts, RanAll(Skip(x, 2), sc, body).pos, '}') && RanAll(Skip(x, 2), sc, body).gotoDepth == w.gotoDepth
    ensures RanAll(Skip(x, 2), sc, body).pos + 1 == w.pos + |ExprLexemes(c)| + |StmtsLexemes(body)| + 3
  {
    var cs, bs := ExprLexemes(c), StmtsLexemes(body);
    var mid := [SymbolLex(')'), SymbolLex('{')];
    Split4(ts, w.pos, cs, mid, bs, [SymbolLex('}')], x.pos, x.pos + 2, x.pos + 2 + |bs|);
    Tok2(ts, x.pos, mid);
    Tok1(ts, x.pos + 2 + |bs|, SymbolLex('}'));
    ExprBefore(ts, w, sc, c, x.pos);
    BlockFrom(ts, x, sc, body);
  }

  /// An expression followed by ')', ']' or ';', which no term or operator
  /// continues.
  lemma ExprBefore(ts: seq<Token>, w: Gen, sc: Scope, c: ExprNode, q: nat)
    requires Fits(ts, w) && Sees(w, sc) && ExprOk(sc, c) && Spells(ts, w.pos, ExprLexemes(c))
    requires q == w.pos + |ExprLexemes(c)| && (Sym(ts, q, ')') || Sym(ts, q, ']') || Sym(ts, q, ';'))
    ensures ExprAlone(ts, w, sc, c)
  {
  }

  /// `= e;` at `b`.
  lemma ValueFrom(ts: seq<Token>, b: Gen, sc: Scope, v: ExprNode)
    requires Fits(ts, b) && Sees(b, sc) && ExprOk(sc, v) && Sym(ts, b.pos, '=')
    requires Spells(ts, Skip(b, 1).pos, ExprLexemes(v)) && Sym(ts, Skip(b, 1).pos + |ExprLexemes(v)|, ';')
    ensures ValueAt(ts, b, sc, v)
  {
    ExprBefore(ts, Skip(b, 1), sc, v, Skip(b, 1).pos + |ExprLexemes(v)|);
  }

  /// `) { body }` at `x`.
  lemma BlockFrom(ts: seq<Token>, x: Gen, sc: Scope, body: seq<StmtNode>)
    requires Fits(ts, x) && Sees(x, sc) && StmtsOk(sc, body)
    requires Sym(ts, x.pos, ')') && Sym(ts, x.pos + 1, '{') && Spells(ts, x.pos + 2, StmtsLexemes(body))
    requires Sym(ts, x.pos + 2 + |StmtsLexemes(body)|, '}')
    ensures BlockAt(ts, x, sc, body)
    ensures Fits(ts, RanAll(Skip(x, 2), sc, body)) && Sees(RanAll(Skip(x, 2), sc, body), sc)
    ensures Sym(ts, RanAll(Skip(x, 2), sc, body).pos, '}') && RanAll(Skip(x, 2), sc, body).gotoDepth == x.gotoDepth
    ensures RanAll(Skip(x, 2), sc, body).pos == x.pos + |StmtsLexemes(body)| + 2
  {
  }

  /// `compIf` on `else { body }` after the then-branch ends at `b`.
  lemma ElseBlock(ts: seq<Token>, b: Gen, sc: Scope, q: nat, h: Gen, l0: LabelName, l1: LabelName, body: seq<StmtNode>)
    requires Fits(ts, b) && Sees(b, sc) && StmtsOk(sc, body)
    requires q == b.pos + 1 && Spells(ts, q, [KeywordLex(Else), SymbolLex('{')] + StmtsLexemes(body) + [SymbolLex('}')])
    requires h == Skip(Emit(Skip(b, 1), [GotoCmd(l1), LabelCmd(l0)]), 1)
    ensures Kw(ts, b.pos + 1, Else) && Sym(ts, h.pos, '{') && Fits(ts, Skip(h, 1))
    ensures Statements(ts, Skip(h, 1)) == RanAll(Skip(h, 1), sc, body)
    ensures Sym(ts, RanAll(Skip(h, 1), sc, body).pos, '}') && RanAll(Skip(h, 1), sc, body).gotoDepth == b.gotoDepth
    decreases body, 4
  {
    ElseFrom(ts, b, sc, q, h, l0, l1, body);
    StmtsCompiles(ts, Skip(h, 1), sc, body);
  }

  /// `else { body }` after the then-branch ends at `b`.
  lemma ElseFrom(ts: seq<Token>, b: Gen, sc: Scope, q: nat, h: Gen, l0: LabelName, l1: LabelName, body: seq<StmtNode>)
    requires Fits(ts, b) && Sees(b, sc) && StmtsOk(sc, body)
    requires q == b.pos + 1 && Spells(ts, q, [KeywordLex(Else), SymbolLex('{')] + StmtsLexemes(body) + [SymbolLex('}')])
    requires h == Skip(Emit(Skip(b, 1), [GotoCmd(l1), LabelCmd(l0)]), 1)
    ensures Kw(ts, b.pos + 1, Else) && Sym(ts, h.pos, '{') && StmtsAt(ts, Skip(h, 1), sc, body)
    ensures Sym(ts, RanAll(Skip(h, 1), sc, body).pos, '}') && RanAll(Skip(h, 1), sc, body).gotoDepth == b.gotoDepth
  {
    var bs := StmtsLexemes(body);
    var head := [KeywordLex(Else), SymbolLex('{')];
    Split3(ts, q, head, bs, [SymbolLex('}')], q + 2, q + 2 + |bs|);
    Tok2(ts, q, head);
    Tok1(ts, q + 2 + |bs|, SymbolLex('}'));
  }

  lemma BlockCompiles(ts: seq<Token>, x: Gen, sc: Scope, body: seq<StmtNode>)
    requires BlockAt(ts, x, sc, body)
    ensures Block(ts, x) == (RanAll(Skip(x, 2), sc, body), true)
    decreases body, 3
  {
    StmtsCompiles(ts, Skip(x, 2), sc, body);
  }

  /// The keyword and the '(' of a while or an if, and what follows them.
  lemma OpenParts(ts: seq<Token>, g: Gen, sc: Scope, s: StmtNode, rest: seq<Lexeme>, w: Gen)
    requires StmtAt(ts, g, sc, s) && (s.WhileS? || s.IfS? || s.IfElseS?)
    requires StmtLexemes(s) == [KeywordLex(StmtKeyword(s)), SymbolLex('(')] + rest
    requires w.pos == g.pos + 2 && Sees(w, sc) && w.cst == g.cst && w.sst == g.sst
    ensures Fits(ts, Skip(g, 1)) && Sym(ts, Skip(g, 1).pos, '(')
    ensures Fits(ts, w) && Spells(ts, w.pos, rest)
  {
    var head := [KeywordLex(StmtKeyword(s)), SymbolLex('(')];
    SpellsSplit(ts, g.pos, head, rest);
    SpellsEnd(ts, w.pos, rest);
    Tok2(ts, g.pos, head);
  }

  // ------------------------------------------------------------ while

  /// `compWhile` on the tokens after `while` of a well-formed while
  /// statement: it takes the counter value `i` for its labels
  /// `(i, d + 1, 0)` and `(i, d + 1, 1)` and compiles its body one level
  /// deeper with the counter from `i + 1` on.
  lemma WhileCompiles(ts: seq<Token>, g: Gen, sc: Scope, s: StmtNode)
    requires StmtAt(ts, g, sc, s) && s.WhileS?
    ensures Fits(ts, Skip(g, 1)) && WhileStatement(ts, Skip(g, 1)) == Ran(g, sc, s)
    decreases s, 2
  {
    var w, x := WhileParts(ts, g, sc, s);
    CondBlock(ts, w, sc, s.cond, s.body, x, Label(Skip(g, 1), Skip(g, 1).gotoInc, 1));
    WhileEngine(ts, Skip(g, 1), w, x, RanAll(Skip(x, 2), sc, s.body));
    WhileShape(g, sc, s, w, x);
  }

  /// `RanAll` spelled out for a known depth and counter.
  lemma RanAllIs(y: Gen, sc: Scope, ss: seq<StmtNode>, d: nat, i: nat)
    requires y.gotoDepth == d && y.gotoInc == i
    ensures RanAll(y, sc, ss) == y.(pos := y.pos + |StmtsLexemes(ss)|, out := y.out + StmtsCode(sc, d, i, ss).0, gotoInc := StmtsCode(sc, d, i, ss).1)
  {
  }

  /// `compWhile` once its condition and its body are known.
  lemma WhileEngine(ts: seq<Token>, k: Gen, w: Gen, x: Gen, b: Gen)
    requires Fits(ts, k) && Sym(ts, k.pos, '(')
    requires w == Skip(Emit(k.(gotoInc := k.gotoInc + 1, gotoDepth := k.gotoDepth + 1), [LabelCmd(Label(k, k.gotoInc, 0))]), 1)
    requires Fits(ts, w) && x == Emit(Expression(ts, w).0, [Arith(NotOp), IfGotoCmd(Label(k, k.gotoInc, 1))])
    requires Fits(ts, x) && Block(ts, x) == (b, true) && Sym(ts, b.pos, '}') && !b.errno && b.gotoDepth == k.gotoDepth + 1
    ensures var r := Skip(Emit(b, [GotoCmd(Label(k, k.gotoInc, 0)), LabelCmd(Label(k, k.gotoInc, 1))]), 1);
            WhileStatement(ts, k) == r.(gotoDepth := k.gotoDepth)
  {
  }

  /// The parts of `while (c) { body }`.
  lemma WhileParts(ts: seq<Token>, g: Gen, sc: Scope, s: StmtNode) returns (w: Gen, x: Gen)
    requires StmtAt(ts, g, sc, s) && s.WhileS?
    ensures Fits(ts, Skip(g, 1)) && Sym(ts, Skip(g, 1).pos, '(')
    ensures w == Skip(Emit(Skip(g, 1).(gotoInc := Skip(g, 1).gotoInc + 1, gotoDepth := Skip(g, 1).gotoDepth + 1),
                           [LabelCmd(Label(Skip(g, 1), Skip(g, 1).gotoInc, 0))]), 1)
    ensures w.gotoDepth == Skip(g, 1).gotoDepth + 1
    ensures Fits(ts, w) && Sees(w, sc) && ExprOk(sc, s.cond) && StmtsOk(sc, s.body)
    ensures Spells(ts, w.pos, ExprLexemes(s.cond) + [SymbolLex(')'), SymbolLex('{')] + StmtsLexemes(s.body) + [SymbolLex('}')])
    ensures x == Emit(After(w, |ExprLexemes(s.cond)|, ExprCode(sc, s.cond)), [Arith(NotOp), IfGotoCmd(Label(Skip(g, 1), Skip(g, 1).gotoInc, 1))])
  {
    var k := Skip(g, 1);
    w := Skip(Emit(k.(gotoInc := k.gotoInc + 1, gotoDepth := k.gotoDepth + 1), [LabelCmd(Label(k, k.gotoInc, 0))]), 1);
    x := Emit(After(w, |ExprLexemes(s.cond)|, ExprCode(sc, s.cond)), [Arith(NotOp), IfGotoCmd(Label(k, k.gotoInc, 1))]);
    var rest := ExprLexemes(s.cond) + [SymbolLex(')'), SymbolLex('{')] + StmtsLexemes(s.body) + [SymbolLex('}')];
    assert StmtLexemes(s) == [KeywordLex(While), SymbolLex('(')] + rest;
    OpenParts(ts, g, sc, s, rest, w);
  }

  /// What a while statement numbered `g.gotoInc` leaves, given the code
  /// `cc` of its `nc`-token condition and the code `bc` of its `nb`-token
  /// body, after which the counter is `i1`.
  function WhileGen(g: Gen, cc: seq<VmCmd>, nc: nat, bc: seq<VmCmd>, nb: nat, i1: nat): Gen
  {
    var l0, l1 := Label(Skip(g, 1), g.gotoInc, 0), Label(Skip(g, 1), g.gotoInc, 1);
    g.(pos := g.pos + (nc + nb + 5),
       out := g.out + ([LabelCmd(l0)] + cc + [ArithCmd(NotOp), IfGotoCmd(l1)] + bc + [GotoCmd(l0), LabelCmd(l1)]),
       gotoInc := i1)
  }

  /// The model's result for a while statement, in that form.
  lemma WhileRan(g: Gen, sc: Scope, s: StmtNode)
    requires s.WhileS? && g.className == sc.cls
    ensures var bc := StmtsCode(sc, g.gotoDepth + 1, g.gotoInc + 1, s.body);
            Ran(g, sc, s) == WhileGen(g, ExprCode(sc, s.cond), |ExprLexemes(s.cond)|, bc.0, |StmtsLexemes(s.body)|, bc.1)
  {
  }

  /// The engine's result for a while statement is the model's.
  lemma WhileShape(g: Gen, sc: Scope, s: StmtNode, w: Gen, x: Gen)
    requires s.WhileS? && g.className == sc.cls
    requires w == Skip(Emit(Skip(g, 1).(gotoInc := Skip(g, 1).gotoInc + 1, gotoDepth := Skip(g, 1).gotoDepth + 1),
                            [LabelCmd(Label(Skip(g, 1), Skip(g, 1).gotoInc, 0))]), 1)
    requires x == Emit(After(w, |ExprLexemes(s.cond)|, ExprCode(sc, s.cond)), [Arith(NotOp), IfGotoCmd(Label(Skip(g, 1), Skip(g, 1).gotoInc, 1))])
    ensures var k := Skip(g, 1);
            var r := Skip(Emit(RanAll(Skip(x, 2), sc, s.body), [GotoCmd(Label(k, k.gotoInc, 0)), LabelCmd(Label(k, k.gotoInc, 1))]), 1);
            r.(gotoDepth := k.gotoDepth) == Ran(g, sc, s)
  {
    var bc := StmtsCode(sc, g.gotoDepth + 1, g.gotoInc + 1, s.body);
    RanAllIs(Skip(x, 2), sc, s.body, g.gotoDepth + 1, g.gotoInc + 1);
    WhileJoin(g, w, x, RanAll(Skip(x, 2), sc, s.body), ExprCode(sc, s.cond), |ExprLexemes(s.cond)|, bc.0, |StmtsLexemes(s.body)|, bc.1);
    WhileRan(g, sc, s);
  }

  /// The engine's result for a while statement, in the same form.
  lemma WhileJoin(g: Gen, w: Gen, x: Gen, b: Gen, cc: seq<VmCmd>, nc: nat, bc: seq<VmCmd>, nb: nat, i1: nat)
    requires w == Skip(Emit(Skip(g, 1).(gotoInc := Skip(g, 1).gotoInc + 1, gotoDepth := Skip(g, 1).gotoDepth + 1),
                            [LabelCmd(Label(Skip(g, 1), Skip(g, 1).gotoInc, 0))]), 1)
    requires x == Emit(After(w, nc, cc), [Arith(NotOp), IfGotoCmd(Label(Skip(g, 1), Skip(g, 1).gotoInc, 1))])
    requires b == Skip(x, 2).(pos := Skip(x, 2).pos + nb, out := Skip(x, 2).out + bc, gotoInc := i1)
    ensures var k := Skip(g, 1);
            var r := Skip(Emit(b, [GotoCmd(Label(k, k.gotoInc, 0)), LabelCmd(Label(k, k.gotoInc, 1))]), 1);
            r.(gotoDepth := k.gotoDepth) == WhileGen(g, cc, nc, bc, nb, i1)
  {
    var l0, l1 := Label(Skip(g, 1), g.gotoInc, 0), Label(Skip(g, 1), g.gotoInc, 1);
    assert g.out + [LabelCmd(l0)] + cc + [ArithCmd(NotOp), IfGotoCmd(l1)] + bc + [GotoCmd(l0), LabelCmd(l1)]
        == g.out + ([LabelCmd(l0)] + cc + [ArithCmd(NotOp), IfGotoCmd(l1)] + bc + [GotoCmd(l0), LabelCmd(l1)]);
  }

  // ------------------------------------------------------------ if

  /// `compIf` on the tokens after `if` of a well-formed if statement
  /// without an else-branch: it takes the counter value `i` for its label
  /// `(i, d + 1, 0)` and compiles its branch one level deeper.
  lemma IfCompiles(ts: seq<Token>, g: Gen, sc: Scope, s: StmtNode)
    requires StmtAt(ts, g, sc, s) && s.IfS?
    ensures Fits(ts, Skip(g, 1)) && IfStatement(ts, Skip(g, 1)) == Ran(g, sc, s)
    decreases s, 2
  {
    var w, x := IfParts(ts, g, sc, s);
    IfRest(ts, g, sc, s, w, x);
    IfShape(g, sc, s, w, x);
  }

  /// The same once the parts are known.
  lemma IfRest(ts: seq<Token>, g: Gen, sc: Scope, s: StmtNode, w: Gen, x: Gen)
    requires s.IfS?
    requires Fits(ts, Skip(g, 1)) && Sym(ts, Skip(g, 1).pos, '(')
    requires w == Skip(Skip(g, 1).(gotoInc := Skip(g, 1).gotoInc + 1, gotoDepth := Skip(g, 1).gotoDepth + 1), 1)
    requires w.gotoDepth == Skip(g, 1).gotoDepth + 1
    requires Fits(ts, w) && Sees(w, sc) && ExprOk(sc, s.cond) && StmtsOk(sc, s.thenBody)
    requires Spells(ts, w.pos, ExprLexemes(s.cond) + [SymbolLex(')'), SymbolLex('{')] + StmtsLexemes(s.thenBody) + [SymbolLex('}')])
    requires x == Emit(After(w, |ExprLexemes(s.cond)|, ExprCode(sc, s.cond)), [Arith(NotOp), IfGotoCmd(Label(Skip(g, 1), Skip(g, 1).gotoInc, 0))])
    requires !Kw(ts, w.pos + |ExprLexemes(s.cond)| + |StmtsLexemes(s.thenBody)| + 3, Else)
    ensures var k := Skip(g, 1);
            var r := Emit(Skip(RanAll(Skip(x, 2), sc, s.thenBody), 1), [LabelCmd(Label(k, k.gotoInc, 0))]);
            IfStatement(ts, k) == r.(gotoDepth := k.gotoDepth)
    decreases s, 1
  {
    CondBlock(ts, w, sc, s.cond, s.thenBody, x, Label(Skip(g, 1), Skip(g, 1).gotoInc, 0));
    IfEngine(ts, Skip(g, 1), w, x, RanAll(Skip(x, 2), sc, s.thenBody));
  }

  /// The same with an else-branch: the labels `(i, d + 1, 0)` and
  /// `(i, d + 1, 1)`, both branches one level deeper, the else-branch with
  /// the counter the then-branch leaves.
  lemma IfElseCompiles(ts: seq<Token>, g: Gen, sc: Scope, s: StmtNode)
    requires StmtAt(ts, g, sc, s) && s.IfElseS?
    ensures Fits(ts, Skip(g, 1)) && IfStatement(ts, Skip(g, 1)) == Ran(g, sc, s)
    decreases s, 2
  {
    var w, x := IfElseParts(ts, g, sc, s);
    var l0, l1 := Label(Skip(g, 1), Skip(g, 1).gotoInc, 0), Label(Skip(g, 1), Skip(g, 1).gotoInc, 1);
    var b := RanAll(Skip(x, 2), sc, s.thenBody);
    var h := Skip(Emit(Skip(b, 1), [GotoCmd(l1), LabelCmd(l0)]), 1);
    IfElseRest(ts, g, sc, s, w, x, b, h);
    IfElseShape(g, sc, s, w, x, b, h);
  }

  /// The same once the parts are known.
  lemma IfElseRest(ts: seq<Token>, g: Gen, sc: Scope, s: StmtNode, w: Gen, x: Gen, b: Gen, h: Gen)
    requires s.IfElseS? && g.className == sc.cls
    requires Fits(ts, Skip(g, 1)) && Sym(ts, Skip(g, 1).pos, '(')
    requires w == Skip(Skip(g, 1).(gotoInc := Skip(g, 1).gotoInc + 1, gotoDepth := Skip(g, 1).gotoDepth + 1), 1)
    requires w.gotoDepth == Skip(g, 1).gotoDepth + 1
    requires Fits(ts, w) && Sees(w, sc) && ExprOk(sc, s.cond) && StmtsOk(sc, s.thenBody) && StmtsOk(sc, s.elseBody)
    requires Spells(ts, w.pos, ExprLexemes(s.cond) + [SymbolLex(')'), SymbolLex('{')] + StmtsLexemes(s.thenBody) + [SymbolLex('}')])
    requires Spells(ts, w.pos + |ExprLexemes(s.cond)| + |StmtsLexemes(s.thenBody)| + 3,
                    [KeywordLex(Else), SymbolLex('{')] + StmtsLexemes(s.elseBody) + [SymbolLex('}')])
    requires x == Emit(After(w, |ExprLexemes(s.cond)|, ExprCode(sc, s.cond)), [Arith(NotOp), IfGotoCmd(Label(Skip(g, 1), Skip(g, 1).gotoInc, 0))])
    requires b == RanAll(Skip(x, 2), sc, s.thenBody)
    requires h == Skip(Emit(Skip(b, 1), [GotoCmd(Label(Skip(g, 1), Skip(g, 1).gotoInc, 1)), LabelCmd(Label(Skip(g, 1), Skip(g, 1).gotoInc, 0))]), 1)
    ensures var k := Skip(g, 1);
            var r := Skip(Emit(RanAll(Skip(h, 1), sc, s.elseBody), [LabelCmd(Label(k, k.gotoInc, 1))]), 1);
            IfStatement(ts, k) == r.(gotoDepth := k.gotoDepth)
    decreases s, 1
  {
    var l0, l1 := Label(Skip(g, 1), Skip(g, 1).gotoInc, 0), Label(Skip(g, 1), Skip(g, 1).gotoInc, 1);
    CondBlock(ts, w, sc, s.cond, s.thenBody, x, l0);
    ElseBlock(ts, b, sc, w.pos + |ExprLexemes(s.cond)| + |StmtsLexemes(s.thenBody)| + 3, h, l0, l1, s.elseBody);
    IfElseEngine(ts, Skip(g, 1), w, x, b, h, RanAll(Skip(h, 1), sc, s.elseBody));
  }

  /// `compIf` without an else-branch once its condition and branch are
  /// known.
  lemma IfEngine(ts: seq<Token>, k: Gen, w: Gen, x: Gen, b: Gen)
    requires Fits(ts, k) && Sym(ts, k.pos, '(')
    requires w == Skip(k.(gotoInc := k.gotoInc + 1, gotoDepth := k.gotoDepth + 1), 1)
    requires Fits(ts, w) && x == Emit(Expression(ts, w).0, [Arith(NotOp), IfGotoCmd(Label(k, k.gotoInc, 0))])
    requires Fits(ts, x) && Block(ts, x) == (b, true) && Sym(ts, b.pos, '}') && !b.errno && b.gotoDepth == k.gotoDepth + 1
    requires !Kw(ts, b.pos + 1, Else)
    ensures var r := Emit(Skip(b, 1), [LabelCmd(Label(k, k.gotoInc, 0))]);
            IfStatement(ts, k) == r.(gotoDepth := k.gotoDepth)
  {
    NoElseEngine(ts, b, Label(k, k.gotoInc, 0), Label(k, k.gotoInc, 1));
  }

  /// `compIf` with an else-branch once its condition and branches are
  /// known.
  lemma IfElseEngine(ts: seq<Token>, k: Gen, w: Gen, x: Gen, b: Gen, h: Gen, e: Gen)
    requires Fits(ts, k) && Sym(ts, k.pos, '(')
    requires w == Skip(k.(gotoInc := k.gotoInc + 1, gotoDepth := k.gotoDepth + 1), 1)
    requires Fits(ts, w) && x == Emit(Expression(ts, w).0, [Arith(NotOp), IfGotoCmd(Label(k, k.gotoInc, 0))])
    requires Fits(ts, x) && Block(ts, x) == (b, true) && Sym(ts, b.pos, '}') && Kw(ts, b.pos + 1, Else)
    requires h == Skip(Emit(Skip(b, 1), [GotoCmd(Label(k, k.gotoInc, 1)), LabelCmd(Label(k, k.gotoInc, 0))]), 1)
    requires Sym(ts, h.pos, '{') && Fits(ts, Skip(h, 1)) && Statements(ts, Skip(h, 1)) == e
    requires Sym(ts, e.pos, '}') && !e.errno && e.gotoDepth == k.gotoDepth + 1
    ensures var r := Skip(Emit(e, [LabelCmd(Label(k, k.gotoInc, 1))]), 1);
            IfStatement(ts, k) == r.(gotoDepth := k.gotoDepth)
  {
    ElseEngine(ts, b, h, e, Label(k, k.gotoInc, 0), Label(k, k.gotoInc, 1));
  }

  /// No else-branch: the end label follows the then-branch.
  lemma NoElseEngine(ts: seq<Token>, b: Gen, l0: LabelName, l1: LabelName)
    requires Fits(ts, b) && Sym(ts, b.pos, '}') && !Kw(ts, b.pos + 1, Else)
    ensures Fits(ts, Skip(b, 1)) && ElseBranch(ts, Skip(b, 1), l0, l1) == Emit(Skip(b, 1), [LabelCmd(l0)])
  {
  }

  /// An else-branch: a jump over it, the label of its start, its
  /// statements between braces and the end label.
  lemma ElseEngine(ts: seq<Token>, b: Gen, h: Gen, e: Gen, l0: LabelName, l1: LabelName)
    requires Fits(ts, b) && Sym(ts, b.pos, '}') && Kw(ts, b.pos + 1, Else)
    requires h == Skip(Emit(Skip(b, 1), [GotoCmd(l1), LabelCmd(l0)]), 1)
    requires Sym(ts, h.pos, '{') && Fits(ts, Skip(h, 1)) && Statements(ts, Skip(h, 1)) == e && Sym(ts, e.pos, '}')
    ensures Fits(ts, Skip(b, 1)) && ElseBranch(ts, Skip(b, 1), l0, l1) == Skip(Emit(e, [LabelCmd(l1)]), 1)
  {
  }

  /// The parts of `if (c) { body }`.
  lemma IfParts(ts: seq<Token>, g: Gen, sc: Scope, s: StmtNode) returns (w: Gen, x: Gen)
    requires StmtAt(ts, g, sc, s) && s.IfS?
    ensures Fits(ts, Skip(g, 1)) && Sym(ts, Skip(g, 1).pos, '(')
    ensures w == Skip(Skip(g, 1).(gotoInc := Skip(g, 1).gotoInc + 1, gotoDepth := Skip(g, 1).gotoDepth + 1), 1)
    ensures w.gotoDepth == Skip(g, 1).gotoDepth + 1
    ensures Fits(ts, w) && Sees(w, sc) && ExprOk(sc, s.cond) && StmtsOk(sc, s.thenBody)
    ensures Spells(ts, w.pos, ExprLexemes(s.cond) + [SymbolLex(')'), SymbolLex('{')] + StmtsLexemes(s.thenBody) + [SymbolLex('}')])
    ensures x == Emit(After(w, |ExprLexemes(s.cond)|, ExprCode(sc, s.cond)), [Arith(NotOp), IfGotoCmd(Label(Skip(g, 1), Skip(g, 1).gotoInc, 0))])
    ensures !Kw(ts, w.pos + |ExprLexemes(s.cond)| + |StmtsLexemes(s.thenBody)| + 3, Else)
  {
    var k := Skip(g, 1);
    w := Skip(k.(gotoInc := k.gotoInc + 1, gotoDepth := k.gotoDepth + 1), 1);
    x := Emit(After(w, |ExprLexemes(s.cond)|, ExprCode(sc, s.cond)), [Arith(NotOp), IfGotoCmd(Label(k, k.gotoInc, 0))]);
    var rest := ExprLexemes(s.cond) + [SymbolLex(')'), SymbolLex('{')] + StmtsLexemes(s.thenBody) + [SymbolLex('}')];
    assert StmtLexemes(s) == [KeywordLex(If), SymbolLex('(')] + rest;
    OpenParts(ts, g, sc, s, rest, w);
  }

  /// What an if statement without an else-branch numbered `g.gotoInc`
  /// leaves, given the code of its condition and of its branch.
  function IfGen(g: Gen, cc: seq<VmCmd>, nc: nat, bc: seq<VmCmd>, nb: nat, i1: nat): Gen
  {
    var l0 := Label(Skip(g, 1), g.gotoInc, 0);
    g.(pos := g.pos + (nc + nb + 5), out := g.out + (cc + [ArithCmd(NotOp), IfGotoCmd(l0)] + bc + [LabelCmd(l0)]), gotoInc := i1)
  }

  /// The model's result for an if statement without an else-branch, in
  /// that form.
  lemma IfRan(g: Gen, sc: Scope, s: StmtNode)
    requires s.IfS? && g.className == sc.cls
    ensures var bc := StmtsCode(sc, g.gotoDepth + 1, g.gotoInc + 1, s.thenBody);
            Ran(g, sc, s) == IfGen(g, ExprCode(sc, s.cond), |ExprLexemes(s.cond)|, bc.0, |StmtsLexemes(s.thenBody)|, bc.1)
  {
  }

  /// The engine's result for an if statement without an else-branch is
  /// the model's.
  lemma IfShape(g: Gen, sc: Scope, s: StmtNode, w: Gen, x: Gen)
    requires s.IfS? && g.className == sc.cls
    requires w == Skip(Skip(g, 1).(gotoInc := Skip(g, 1).gotoInc + 1, gotoDepth := Skip(g, 1).gotoDepth + 1), 1)
    requires x == Emit(After(w, |ExprLexemes(s.cond)|, ExprCode(sc, s.cond)), [Arith(NotOp), IfGotoCmd(Label(Skip(g, 1), Skip(g, 1).gotoInc, 0))])
    ensures var k := Skip(g, 1);
            var r := Emit(Skip(RanAll(Skip(x, 2), sc, s.thenBody), 1), [LabelCmd(Label(k, k.gotoInc, 0))]);
            r.(gotoDepth := k.gotoDepth) == Ran(g, sc, s)
  {
    var bc := StmtsCode(sc, g.gotoDepth + 1, g.gotoInc + 1, s.thenBody);
    RanAllIs(Skip(x, 2), sc, s.thenBody, g.gotoDepth + 1, g.gotoInc + 1);
    IfJoin(g, w, x, RanAll(Skip(x, 2), sc, s.thenBody), ExprCode(sc, s.cond), |ExprLexemes(s.cond)|, bc.0, |StmtsLexemes(s.thenBody)|, bc.1);
    IfRan(g, sc, s);
  }

  /// The engine's result for it, in the same form.
  lemma IfJoin(g: Gen, w: Gen, x: Gen, b: Gen, cc: seq<VmCmd>, nc: nat, bc: seq<VmCmd>, nb: nat, i1: nat)
    requires w == Skip(Skip(g, 1).(gotoInc := Skip(g, 1).gotoInc + 1, gotoDepth := Skip(g, 1).gotoDepth + 1), 1)
    requires x == Emit(After(w, nc, cc), [Arith(NotOp), IfGotoCmd(Label(Skip(g, 1), Skip(g, 1).gotoInc, 0))])
    requires b == Skip(x, 2).(pos := Skip(x, 2).pos + nb, out := Skip(x, 2).out + bc, gotoInc := i1)
    ensures var k := Skip(g, 1);
            var r := Emit(Skip(b, 1), [LabelCmd(Label(k, k.gotoInc, 0))]);
            r.(gotoDepth := k.gotoDepth) == IfGen(g, cc, nc, bc, nb, i1)
  {
    var l0 := Label(Skip(g, 1), g.gotoInc, 0);
    assert g.out + cc + [ArithCmd(NotOp), IfGotoCmd(l0)] + bc + [LabelCmd(l0)]
        == g.out + (cc + [ArithCmd(NotOp), IfGotoCmd(l0)] + bc + [LabelCmd(l0)]);
  }

  /// The parts of `if (c) { body } else { body' }`.
  lemma IfElseParts(ts: seq<Token>, g: Gen, sc: Scope, s: StmtNode) returns (w: Gen, x: Gen)
    requires StmtAt(ts, g, sc, s) && s.IfElseS?
    ensures Fits(ts, Skip(g, 1)) && Sym(ts, Skip(g, 1).pos, '(')
    ensures w == Skip(Skip(g, 1).(gotoInc := Skip(g, 1).gotoInc + 1, gotoDepth := Skip(g, 1).gotoDepth + 1), 1)
    ensures w.gotoDepth == Skip(g, 1).gotoDepth + 1
    ensures Fits(ts, w) && Sees(w, sc) && ExprOk(sc, s.cond) && StmtsOk(sc, s.thenBody) && StmtsOk(sc, s.elseBody)
    ensures Spells(ts, w.pos, ExprLexemes(s.cond) + [SymbolLex(')'), SymbolLex('{')] + StmtsLexemes(s.thenBody) + [SymbolLex('}')])
    ensures Spells(ts, w.pos + |ExprLexemes(s.cond)| + |StmtsLexemes(s.thenBody)| + 3,
                   [KeywordLex(Else), SymbolLex('{')] + StmtsLexemes(s.elseBody) + [SymbolLex('}')])
    ensures x == Emit(After(w, |ExprLexemes(s.cond)|, ExprCode(sc, s.cond)), [Arith(NotOp), IfGotoCmd(Label(Skip(g, 1), Skip(g, 1).gotoInc, 0))])
  {
    var k := Skip(g, 1);
    w := Skip(k.(gotoInc := k.gotoInc + 1, gotoDepth := k.gotoDepth + 1), 1);
    x := Emit(After(w, |ExprLexemes(s.cond)|, ExprCode(sc, s.cond)), [Arith(NotOp), IfGotoCmd(Label(k, k.gotoInc, 0))]);
    var first := ExprLexemes(s.cond) + [SymbolLex(')'), SymbolLex('{')] + StmtsLexemes(s.thenBody) + [SymbolLex('}')];
    var second := [KeywordLex(Else), SymbolLex('{')] + StmtsLexemes(s.elseBody) + [SymbolLex('}')];
    assert StmtLexemes(s) == [KeywordLex(If), SymbolLex('(')] + (first + second);
    OpenParts(ts, g, sc, s, first + second, w);
    SpellsSplit(ts, w.pos, first, second);
  }

  /// What an if statement with an else-branch numbered `g.gotoInc`
  /// leaves, given the code of its condition and of its two branches.
  function IfElseGen(g: Gen, cc: seq<VmCmd>, nc: nat, bc: seq<VmCmd>, nb: nat, ec: seq<VmCmd>, ne: nat, i2: nat): Gen
  {
    var l0, l1 := Label(Skip(g, 1), g.gotoInc, 0), Label(Skip(g, 1), g.gotoInc, 1);
    g.(pos := g.pos + (nc + nb + ne + 8),
       out := g.out + (cc + [ArithCmd(NotOp), IfGotoCmd(l0)] + bc + [GotoCmd(l1), LabelCmd(l0)] + ec + [LabelCmd(l1)]),
       gotoInc := i2)
  }

  /// The model's result for an if statement with an else-branch, in that
  /// form.
  lemma IfElseRan(g: Gen, sc: Scope, s: StmtNode)
    requires s.IfElseS? && g.className == sc.cls
    ensures var bc := StmtsCode(sc, g.gotoDepth + 1, g.gotoInc + 1, s.thenBody);
            var ec := StmtsCode(sc, g.gotoDepth + 1, bc.1, s.elseBody);
            Ran(g, sc, s) == IfElseGen(g, ExprCode(sc, s.cond), |ExprLexemes(s.cond)|, bc.0, |StmtsLexemes(s.thenBody)|,
                                       ec.0, |StmtsLexemes(s.elseBody)|, ec.1)
  {
  }

  /// The engine's result for an if statement with an else-branch is the
  /// model's.
  lemma IfElseShape(g: Gen, sc: Scope, s: StmtNode, w: Gen, x: Gen, b: Gen, h: Gen)
    requires s.IfElseS? && g.className == sc.cls
    requires w == Skip(Skip(g, 1).(gotoInc := Skip(g, 1).gotoInc + 1, gotoDepth := Skip(g, 1).gotoDepth + 1), 1)
    requires x == Emit(After(w, |ExprLexemes(s.cond)|, ExprCode(sc, s.cond)), [Arith(NotOp), IfGotoCmd(Label(Skip(g, 1), Skip(g, 1).gotoInc, 0))])
    requires b == RanAll(Skip(x, 2), sc, s.thenBody)
    requires h == Skip(Emit(Skip(b, 1), [GotoCmd(Label(Skip(g, 1), Skip(g, 1).gotoInc, 1)), LabelCmd(Label(Skip(g, 1), Skip(g, 1).gotoInc, 0))]), 1)
    ensures var k := Skip(g, 1);
            var r := Skip(Emit(RanAll(Skip(h, 1), sc, s.elseBody), [LabelCmd(Label(k, k.gotoInc, 1))]), 1);
            r.(gotoDepth := k.gotoDepth) == Ran(g, sc, s)
  {
    var bc := StmtsCode(sc, g.gotoDepth + 1, g.gotoInc + 1, s.thenBody);
    var ec := StmtsCode(sc, g.gotoDepth + 1, bc.1, s.elseBody);
    RanAllIs(Skip(x, 2), sc, s.thenBody, g.gotoDepth + 1, g.gotoInc + 1);
    RanAllIs(Skip(h, 1), sc, s.elseBody, g.gotoDepth + 1, bc.1);
    IfElseJoin(g, w, x, b, h, RanAll(Skip(h, 1), sc, s.elseBody), ExprCode(sc, s.cond), |ExprLexemes(s.cond)|,
               bc.0, |StmtsLexemes(s.thenBody)|, bc.1, ec.0, |StmtsLexemes(s.elseBody)|, ec.1);
    IfElseRan(g, sc, s);
  }

  /// The engine's result for it, in the same form.
  lemma IfElseJoin(g: Gen, w: Gen, x: Gen, b: Gen, h: Gen, e: Gen, cc: seq<VmCmd>, nc: nat, bc: seq<VmCmd>, nb: nat,
                    i1: nat, ec: seq<VmCmd>, ne: nat, i2: nat)
    requires w == Skip(Skip(g, 1).(gotoInc := Skip(g, 1).gotoInc + 1, gotoDepth := Skip(g, 1).gotoDepth + 1), 1)
    requires x == Emit(After(w, nc, cc), [Arith(NotOp), IfGotoCmd(Label(Skip(g, 1), Skip(g, 1).gotoInc, 0))])
    requires b == Skip(x, 2).(pos := Skip(x, 2).pos + nb, out := Skip(x, 2).out + bc, gotoInc := i1)
    requires h == Skip(Emit(Skip(b, 1), [GotoCmd(Label(Skip(g, 1), Skip(g, 1).gotoInc, 1)), LabelCmd(Label(Skip(g, 1), Skip(g, 1).gotoInc, 0))]), 1)
    requires e == Skip(h, 1).(pos := Skip(h, 1).pos + ne, out := Skip(h, 1).out + ec, gotoInc := i2)
    ensures var k := Skip(g, 1);
            var r := Skip(Emit(e, [LabelCmd(Label(k, k.gotoInc, 1))]), 1);
            r.(gotoDepth := k.gotoDepth) == IfElseGen(g, cc, nc, bc, nb, ec, ne, i2)
  {
    var l0, l1 := Label(Skip(g, 1), g.gotoInc, 0), Label(Skip(g, 1), g.gotoInc, 1);
    assert g.out + cc + [ArithCmd(NotOp), IfGotoCmd(l0)] + bc + [GotoCmd(l1), LabelCmd(l0)] + ec + [LabelCmd(l1)]
        == g.out + (cc + [ArithCmd(NotOp), IfGotoCmd(l0)] + bc + [GotoCmd(l1), LabelCmd(l0)] + ec + [LabelCmd(l1)]);
  }
}

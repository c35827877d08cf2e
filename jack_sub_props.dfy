/// What the subroutine productions of src/compiler.c are proved to do: on
/// the tokens of a well-formed subroutine declaration `compSubroutine`
/// fills a fresh subroutine table with `this`, the parameters and the
/// locals, and prints the `function` line, the prologue and the code of
/// the statements.
module JackSubProps {
  import opened JackTokens
  import opened JackVm
  import opened JackSymbols
  import opened JackEngine
  import opened JackAst
  import opened JackEngineProps
  import opened JackStmtProps
  import opened JackDeclProps

  // ------------------------------------------------------------ parameters

  /// The state after `(',' type name)*` for the parameters `ps`.
  function MoreRan(g: Gen, ps: seq<Param>): Gen
    requires WellSized(g.sst)
  {
    g.(pos := g.pos + 3 * |ps|, sst := DeclarePairs(g.sst, ParamPairs(ps), ArgumentKind))
  }

  /// The tokens at `g` spell `(',' type name)*` for `ps`, and no ','
  /// follows.
  ghost predicate MoreParamsAt(ts: seq<Token>, g: Gen, ps: seq<Param>)
  {
    Fits(ts, g) && ParamsOk(ps) && Spells(ts, g.pos, MoreParamsLexemes(ps)) && !Sym(ts, g.pos + 3 * |ps|, ',')
  }

  lemma {:induction false} MoreParamsLength(ps: seq<Param>)
    ensures |MoreParamsLexemes(ps)| == 3 * |ps|
    decreases |ps|
  {
    if ps != [] {
      MoreParamsLength(ps[1..]);
    }
  }

  lemma ParamsOkTail(ps: seq<Param>)
    requires ps != [] && ParamsOk(ps)
    ensures TypeLexeme(ps[0].typ) && ParamsOk(ps[1..])
  {
    forall i | 0 <= i < |ps[1..]| ensures TypeLexeme(ps[1..][i].typ) {
      assert ps[1..][i] == ps[i + 1];
    }
  }

  /// The pairs of the first parameter, then of the rest.
  lemma ParamPairsHead(t: SymTab, ps: seq<Param>)
    requires WellSized(t) && ps != []
    ensures DeclarePairs(t, ParamPairs(ps), ArgumentKind)
            == DeclarePairs(Declare(t, ps[0].name, TypeText(ps[0].typ), ArgumentKind), ParamPairs(ps[1..]), ArgumentKind)
  {
    assert ParamPairs(ps)[1..] == ParamPairs(ps[1..]);
  }

  /// The tokens of the first parameter of `ps` and what holds after it.
  lemma MoreParamsNext(ts: seq<Token>, g: Gen, ps: seq<Param>, g1: Gen)
    requires MoreParamsAt(ts, g, ps) && ps != []
    requires g1 == DeclareSub(At(g, g.pos + 3), ps[0].name, TypeText(ps[0].typ), ArgumentKind)
    ensures Sym(ts, g.pos, ',') && IsType(ts, g.pos + 1) && Ident(ts, g.pos + 2)
    ensures TypeName(ts, g.pos + 1) == TypeText(ps[0].typ) && Name(ts, g.pos + 2) == ps[0].name
    ensures MoreParamsAt(ts, g1, ps[1..]) && MoreRan(g1, ps[1..]) == MoreRan(g, ps)
  {
    var head := [SymbolLex(','), ps[0].typ, IdentifierLex(ps[0].name)];
    ParamsOkTail(ps);
    MoreParamsLength(ps[1..]);
    SpellsSplit(ts, g.pos, head, MoreParamsLexemes(ps[1..]));
    Tok3(ts, g.pos, head);
    TypeAt(ts, g.pos + 1, ps[0].typ);
    ParamPairsHead(g.sst, ps);
  }

  /// One pass of the `(',' type name)*` loop, unfolded.
  lemma ParametersUnfold(ts: seq<Token>, g: Gen, typ: string, name: string)
    requires Fits(ts, g) && Sym(ts, g.pos, ',') && IsType(ts, g.pos + 1) && Ident(ts, g.pos + 2)
    requires typ == TypeName(ts, g.pos + 1) && name == Name(ts, g.pos + 2)
    ensures Parameters(ts, g) == Parameters(ts, DeclareSub(At(g, g.pos + 3), name, typ, ArgumentKind))
  {
  }

  /// The `(',' type varName)*` loop of `compParameterList` declares each
  /// parameter an argument, in order.
  lemma {:induction false} ParametersCompiles(ts: seq<Token>, g: Gen, ps: seq<Param>)
    requires MoreParamsAt(ts, g, ps)
    ensures Parameters(ts, g) == MoreRan(g, ps)
    decreases |ps|
  {
    if ps == [] {
      assert !Sym(ts, g.pos, ',');
    } else {
      var g1 := DeclareSub(At(g, g.pos + 3), ps[0].name, TypeText(ps[0].typ), ArgumentKind);
      MoreParamsNext(ts, g, ps, g1);
      ParametersUnfold(ts, g, TypeText(ps[0].typ), ps[0].name);
      ParametersCompiles(ts, g1, ps[1..]);
    }
  }

  /// The state after a parameter list `ps`.
  function ParamsRan(g: Gen, ps: seq<Param>): Gen
    requires WellSized(g.sst)
  {
    g.(pos := g.pos + |ParamsLexemes(ps)|, sst := DeclarePairs(g.sst, ParamPairs(ps), ArgumentKind))
  }

  /// The tokens at `g` spell the parameter list `ps`, and a ')' follows.
  ghost predicate ParamsAt(ts: seq<Token>, g: Gen, ps: seq<Param>)
  {
    Fits(ts, g) && !g.errno && ParamsOk(ps) && Spells(ts, g.pos, ParamsLexemes(ps))
    && Sym(ts, g.pos + |ParamsLexemes(ps)|, ')')
  }

  /// The tokens of the first parameter of a nonempty list.
  lemma ParamsFirst(ts: seq<Token>, g: Gen, ps: seq<Param>, g1: Gen)
    requires ParamsAt(ts, g, ps) && ps != []
    requires g1 == DeclareSub(At(g, g.pos + 2), ps[0].name, TypeText(ps[0].typ), ArgumentKind)
    ensures IsType(ts, g.pos) && Ident(ts, g.pos + 1)
    ensures TypeName(ts, g.pos) == TypeText(ps[0].typ) && Name(ts, g.pos + 1) == ps[0].name
    ensures MoreParamsAt(ts, g1, ps[1..]) && MoreRan(g1, ps[1..]) == ParamsRan(g, ps)
  {
    var head := [ps[0].typ, IdentifierLex(ps[0].name)];
    ParamsOkTail(ps);
    MoreParamsLength(ps[1..]);
    SpellsSplit(ts, g.pos, head, MoreParamsLexemes(ps[1..]));
    Tok2(ts, g.pos, head);
    TypeAt(ts, g.pos, ps[0].typ);
    ParamPairsHead(g.sst, ps);
  }

  /// `compParameterList` on a nonempty list, unfolded.
  lemma ParameterListUnfold(ts: seq<Token>, g: Gen, typ: string, name: string, r: Gen)
    requires Fits(ts, g) && IsType(ts, g.pos) && Ident(ts, g.pos + 1)
    requires typ == TypeName(ts, g.pos) && name == Name(ts, g.pos + 1)
    requires Parameters(ts, DeclareSub(At(g, g.pos + 2), name, typ, ArgumentKind)) == r && !r.errno
    ensures ParameterList(ts, g) == r
  {
  }

  /// `compParameterList` on the tokens of a parameter list declares each
  /// parameter an argument, in order, after what the table already holds.
  lemma ParameterListCompiles(ts: seq<Token>, g: Gen, ps: seq<Param>)
    requires ParamsAt(ts, g, ps)
    ensures ParameterList(ts, g) == ParamsRan(g, ps)
  {
    if ps == [] {
      assert !IsType(ts, g.pos);
    } else {
      var g1 := DeclareSub(At(g, g.pos + 2), ps[0].name, TypeText(ps[0].typ), ArgumentKind);
      ParamsFirst(ts, g, ps, g1);
      ParametersCompiles(ts, g1, ps[1..]);
      ParameterListUnfold(ts, g, TypeText(ps[0].typ), ps[0].name, ParamsRan(g, ps));
    }
  }

  // ------------------------------------------------------------ bodies

  /// The state after a subroutine body, from just after its '{': the
  /// `var` declarations read into the table, then the `function` line
  /// with one local per declared name, the prologue and the code of the
  /// statements in the scope the declarations leave, then the '}'.
  function BodyRan(b: Gen, s: SubDecl): Gen
    requires WellSized(b.sst)
  {
    var v := VarsRan(b, s.vars, 0).0;
    var h := Emit(v, [FunctionCmd(b.className, s.name, |VarPairs(s.vars)|)] + SubPrologue(s.kind, b.cst));
    Skip(RanAll(h, Scope(b.className, v.sst, b.cst), s.body), 1)
  }

  /// The tokens at `b` spell the body of `s`, whose statements are well
  /// formed in the scope its declarations leave.
  ghost predicate BodyAt(ts: seq<Token>, b: Gen, s: SubDecl)
  {
    Fits(ts, b) && !b.errno && VarsOk(s.vars)
    && (s.kind == Constructor || s.kind == Function || s.kind == Method)
    && Spells(ts, b.pos, BodyLexemes(s.vars, s.body))
    && StmtsOk(Scope(b.className, DeclarePairs(b.sst, VarPairs(s.vars), LocalKind), b.cst), s.body)
  }

  /// The prologue `compSubroutineBody` prints is the reference one.
  lemma PrologueIs(v: Gen, kind: Keyword)
    requires kind == Constructor || kind == Function || kind == Method
    ensures Prologue(v, kind == Constructor, kind == Method) == SubPrologue(kind, v.cst)
  {
  }

  lemma RanAllPos(h: Gen, sc: Scope, ss: seq<StmtNode>)
    ensures RanAll(h, sc, ss).pos == h.pos + |StmtsLexemes(ss)|
  {
  }

  /// The state in which `compSubroutineBody` compiles the statements.
  lemma BodyEmit(b: Gen, s: SubDecl, vn: (Gen, nat), h: Gen)
    requires WellSized(b.sst) && vn == VarsRan(b, s.vars, 0)
    requires s.kind == Constructor || s.kind == Function || s.kind == Method
    requires h == Emit(vn.0, [FunctionCmd(b.className, s.name, |VarPairs(s.vars)|)] + SubPrologue(s.kind, b.cst))
    ensures h == Emit(vn.0, [FunctionCmd(vn.0.className, s.name, vn.1)] + Prologue(vn.0, s.kind == Constructor, s.kind == Method))
  {
    PrologueIs(vn.0, s.kind);
  }

  /// The tokens of a body: the declarations, with no `var` after them,
  /// then the statements, with the '}' after them.
  lemma BodyTokens(ts: seq<Token>, p: nat, vars: seq<VarDecl>, body: seq<StmtNode>)
    requires Spells(ts, p, BodyLexemes(vars, body))
    ensures var q := p + |VarDeclsLexemes(vars)|;
      && Spells(ts, p, VarDeclsLexemes(vars)) && !Kw(ts, q, Var)
      && Spells(ts, q, StmtsLexemes(body)) && Stops(ts, q + |StmtsLexemes(body)|)
      && Sym(ts, q + |StmtsLexemes(body)|, '}')
  {
    var q := p + |VarDeclsLexemes(vars)|;
    var rest := StmtsLexemes(body) + [SymbolLex('}')];
    assert BodyLexemes(vars, body) == VarDeclsLexemes(vars) + rest;
    SpellsSplit(ts, p, VarDeclsLexemes(vars), rest);
    SpellsSplit(ts, q, StmtsLexemes(body), [SymbolLex('}')]);
    StmtsLead(body, ts, q);
    Tok1(ts, q + |StmtsLexemes(body)|, SymbolLex('}'));
  }

  /// Where the statements of a body start, and with which table.
  lemma BodyState(b: Gen, s: SubDecl, h: Gen)
    requires WellSized(b.sst)
    requires h == Emit(VarsRan(b, s.vars, 0).0, [FunctionCmd(b.className, s.name, |VarPairs(s.vars)|)] + SubPrologue(s.kind, b.cst))
    ensures h.pos == b.pos + |VarDeclsLexemes(s.vars)| && h.sst == DeclarePairs(b.sst, VarPairs(s.vars), LocalKind)
    ensures h.className == b.className && h.cst == b.cst && h.errno == b.errno
  {
  }

  /// The declarations of a body, at the state `compSubroutineBody` starts in.
  lemma BodyVars(ts: seq<Token>, b: Gen, s: SubDecl)
    requires BodyAt(ts, b, s)
    ensures VarsAt(ts, b, s.vars)
  {
    BodyTokens(ts, b.pos, s.vars, s.body);
  }

  /// The statements of a body, and the '}' after them, at the state
  /// `compSubroutineBody` reaches after its prologue.
  lemma BodyStmts(ts: seq<Token>, b: Gen, s: SubDecl, h: Gen)
    requires BodyAt(ts, b, s)
    requires h.pos == b.pos + |VarDeclsLexemes(s.vars)| && h.sst == DeclarePairs(b.sst, VarPairs(s.vars), LocalKind)
    requires h.className == b.className && h.cst == b.cst && h.errno == b.errno
    ensures StmtsAt(ts, h, Scope(b.className, h.sst, b.cst), s.body)
    ensures Sym(ts, h.pos + |StmtsLexemes(s.body)|, '}')
  {
    BodyTokens(ts, b.pos, s.vars, s.body);
    SpellsFits(ts, h.pos, StmtsLexemes(s.body));
  }

  lemma SpellsFits(ts: seq<Token>, p: nat, ls: seq<Lexeme>)
    requires Spells(ts, p, ls)
    ensures p <= |ts|
  {
  }

  /// `compSubroutineBody`, unfolded, given what its parts do.
  lemma BodyUnfold(ts: seq<Token>, b: Gen, name: string, isConstructor: bool, isMethod: bool, vn: (Gen, nat), h: Gen, r: Gen, q: nat)
    requires Fits(ts, b) && VarDecs(ts, b, 0) == vn
    requires h == Emit(vn.0, [FunctionCmd(vn.0.className, name, vn.1)] + Prologue(vn.0, isConstructor, isMethod))
    requires Statements(ts, h) == r && r.pos == q && Sym(ts, q, '}')
    ensures SubroutineBody(ts, b, name, isConstructor, isMethod) == Skip(r, 1)
  {
  }

  /// `compSubroutineBody` on the tokens of a body prints the `function`
  /// line with the number of declared names, the prologue and the code of
  /// the statements.
  lemma BodyCompiles(ts: seq<Token>, b: Gen, s: SubDecl)
    requires BodyAt(ts, b, s)
    ensures SubroutineBody(ts, b, s.name, s.kind == Constructor, s.kind == Method) == BodyRan(b, s)
  {
    var vn := VarsRan(b, s.vars, 0);
    var h := Emit(vn.0, [FunctionCmd(b.className, s.name, |VarPairs(s.vars)|)] + SubPrologue(s.kind, b.cst));
    var sc := Scope(b.className, vn.0.sst, b.cst);
    var q := h.pos + |StmtsLexemes(s.body)|;
    BodyVars(ts, b, s);
    BodyState(b, s, h);
    BodyStmts(ts, b, s, h);
    assert Sym(ts, q, '}');
    VarDecsCompiles(ts, b, s.vars, 0);
    BodyEmit(b, s, vn, h);
    StmtsCompiles(ts, h, sc, s.body);
    RanAllPos(h, sc, s.body);
    assert Sym(ts, q, '}');
    BodyUnfold(ts, b, s.name, s.kind == Constructor, s.kind == Method, vn, h, RanAll(h, sc, s.body), q);
  }
}

/// `compSubroutine` of src/compiler.c on the tokens of a whole subroutine
/// declaration: keyword, return type, name, parameter list and body. The
/// table it leaves is `SubTable`, the code it prints is `SubCode`; the
/// lemmas at the end read off that table what the declaration gives each
/// name.
module JackRoutineProps {
  import opened JackTokens
  import opened JackVm
  import opened JackSymbols
  import opened JackEngine
  import opened JackAst
  import opened JackEngineProps
  import opened JackStmtProps
  import opened JackDeclProps
  import opened JackSubProps
  import opened JackEngineSteps
  import Ds

  // ------------------------------------------------------------ signatures

  /// The state after `'(' parameterList ')' '{' body` at `x`.
  function SigRan(x: Gen, s: SubDecl): Gen
    requires WellSized(x.sst)
  {
    BodyRan(Skip(ParamsRan(Skip(x, 1), s.params), 2), s)
  }

  /// The tokens at `x` spell the signature and body of `s`, whose
  /// statements are well formed once the parameters and the locals are
  /// declared after what `x`'s table holds.
  ghost predicate SigAt(ts: seq<Token>, x: Gen, s: SubDecl)
  {
    Fits(ts, x) && !x.errno && ParamsOk(s.params) && VarsOk(s.vars)
    && (s.kind == Constructor || s.kind == Function || s.kind == Method)
    && Spells(ts, x.pos, SigLexemes(s))
    && StmtsOk(Scope(x.className, DeclarePairs(DeclarePairs(x.sst, ParamPairs(s.params), ArgumentKind),
                                               VarPairs(s.vars), LocalKind), x.cst), s.body)
  }

  /// The tokens of a signature: '(', the parameters, ')', '{', the body.
  lemma SigTokens(ts: seq<Token>, p: nat, s: SubDecl)
    requires Spells(ts, p, SigLexemes(s))
    ensures var q := p + 1 + |ParamsLexemes(s.params)|;
      && Sym(ts, p, '(') && Spells(ts, p + 1, ParamsLexemes(s.params))
      && Sym(ts, q, ')') && Sym(ts, q + 1, '{') && Spells(ts, q + 2, BodyLexemes(s.vars, s.body))
  {
    var q := p + 1 + |ParamsLexemes(s.params)|;
    var tail := [SymbolLex(')'), SymbolLex('{')] + BodyLexemes(s.vars, s.body);
    assert SigLexemes(s) == [SymbolLex('(')] + (ParamsLexemes(s.params) + tail);
    SpellsSplit(ts, p, [SymbolLex('(')], ParamsLexemes(s.params) + tail);
    Tok1(ts, p, SymbolLex('('));
    SpellsSplit(ts, p + 1, ParamsLexemes(s.params), tail);
    SpellsSplit(ts, q, [SymbolLex(')'), SymbolLex('{')], BodyLexemes(s.vars, s.body));
    SpellsAt(ts, q, [SymbolLex(')'), SymbolLex('{')], 0);
    SpellsAt(ts, q, [SymbolLex(')'), SymbolLex('{')], 1);
  }

  /// The parameter list and the body of a signature, at the states
  /// `compSubroutine` reaches.
  lemma SigPieces(ts: seq<Token>, x: Gen, s: SubDecl, pl: Gen)
    requires SigAt(ts, x, s)
    requires pl == ParamsRan(Skip(x, 1), s.params)
    ensures Sym(ts, x.pos, '(') && ParamsAt(ts, Skip(x, 1), s.params)
    ensures Sym(ts, pl.pos, ')') && Sym(ts, pl.pos + 1, '{') && BodyAt(ts, Skip(pl, 2), s)
  {
    SigTokens(ts, x.pos, s);
    SpellsEnd(ts, pl.pos + 2, BodyLexemes(s.vars, s.body));
  }

  /// `compSubroutine` after the name, unfolded, given what its parts do.
  lemma SignatureUnfold(ts: seq<Token>, x: Gen, name: string, isConstructor: bool, isMethod: bool, pl: Gen, r: Gen)
    requires Fits(ts, x) && Sym(ts, x.pos, '(') && ParameterList(ts, Skip(x, 1)) == pl
    requires Sym(ts, pl.pos, ')') && Sym(ts, pl.pos + 1, '{')
    requires SubroutineBody(ts, Skip(pl, 2), name, isConstructor, isMethod) == r
    ensures Signature(ts, x, name, isConstructor, isMethod) == r
  {
  }

  /// On the tokens of a signature the parameters are declared arguments
  /// after what the table holds, then the body is compiled.
  lemma SignatureCompiles(ts: seq<Token>, x: Gen, s: SubDecl)
    requires SigAt(ts, x, s)
    ensures Signature(ts, x, s.name, s.kind == Constructor, s.kind == Method) == SigRan(x, s)
  {
    var pl := ParamsRan(Skip(x, 1), s.params);
    SigPieces(ts, x, s, pl);
    ParameterListCompiles(ts, Skip(x, 1), s.params);
    BodyCompiles(ts, Skip(pl, 2), s);
    SignatureUnfold(ts, x, s.name, s.kind == Constructor, s.kind == Method, pl, BodyRan(Skip(pl, 2), s));
  }

  // ------------------------------------------------------------ subroutine declarations

  /// The subroutine table before the parameters: `this`, as argument 0,
  /// only for a method whose return type is a class name.
  function ReceiverTable(s: SubDecl): (t: SymTab)
    ensures WellSized(t)
  {
    if s.kind == Method && s.ret.IdentifierLex? then Declare(EmptyTable(), "this", s.ret.name, ArgumentKind)
    else EmptyTable()
  }

  /// The state after a whole declaration, from a fresh table: its tokens
  /// read, its reference code printed, the label counter moved past its
  /// while/if statements, and the table `SubTable(s)`.
  function SubRan(g: Gen, s: SubDecl): Gen
  {
    var (c, i) := SubCode(g.className, g.cst, g.gotoDepth, g.gotoInc, s);
    g.(pos := g.pos + |SubLexemes(s)|, out := g.out + c, gotoInc := i, sst := SubTable(s))
  }

  /// The tokens at `g` spell the well-formed declaration `s`, and the
  /// table is the fresh one `compSubroutine` starts each declaration with.
  ghost predicate SubAt(ts: seq<Token>, g: Gen, s: SubDecl)
  {
    Fits(ts, g) && !g.errno && g.sst == EmptyTable() && SubOk(s)
    && Spells(ts, g.pos, SubLexemes(s))
    && StmtsOk(Scope(g.className, SubTable(s), g.cst), s.body)
  }

  /// The head of a declaration: its keyword, return type and name.
  lemma SubHead(ts: seq<Token>, g: Gen, s: SubDecl)
    requires SubAt(ts, g, s)
    ensures StartsSubroutine(ts, g.pos)
    ensures Kw(ts, g.pos, Method) == (s.kind == Method) && Kw(ts, g.pos, Constructor) == (s.kind == Constructor)
    ensures Kw(ts, g.pos + 1, Void) || IsType(ts, g.pos + 1)
    ensures Ident(ts, g.pos + 1) == s.ret.IdentifierLex? && (Ident(ts, g.pos + 1) ==> Name(ts, g.pos + 1) == s.ret.name)
    ensures Ident(ts, g.pos + 2) && Name(ts, g.pos + 2) == s.name
    ensures Spells(ts, g.pos + 3, SigLexemes(s))
  {
    var head := [KeywordLex(s.kind), s.ret, IdentifierLex(s.name)];
    SpellsSplit(ts, g.pos, head, SigLexemes(s));
    SpellsAt(ts, g.pos, head, 0);
    SpellsAt(ts, g.pos, head, 1);
    SpellsAt(ts, g.pos, head, 2);
  }

  /// The signature of a declaration, at the state after its head.
  lemma SubSig(ts: seq<Token>, g: Gen, s: SubDecl, g1: Gen)
    requires SubAt(ts, g, s) && Spells(ts, g.pos + 3, SigLexemes(s))
    requires g1 == g.(sst := ReceiverTable(s))
    ensures SigAt(ts, At(g1, g.pos + 3), s)
  {
  }

  /// What the first pass leaves is what the reference gives.
  lemma SigRanIs(g: Gen, s: SubDecl, g1: Gen)
    requires g1 == g.(sst := ReceiverTable(s))
    ensures SigRan(At(g1, g.pos + 3), s) == SubRan(g, s)
  {
    var x := At(g1, g.pos + 3);
    var b := Skip(ParamsRan(Skip(x, 1), s.params), 2);
    assert b == g.(pos := g.pos + 3 + 1 + |ParamsLexemes(s.params)| + 2,
                   sst := DeclarePairs(ReceiverTable(s), ParamPairs(s.params), ArgumentKind));
    var v := VarsRan(b, s.vars, 0).0;
    assert v.sst == SubTable(s);
    var f := [FunctionCmd(g.className, s.name, |VarPairs(s.vars)|)] + SubPrologue(s.kind, g.cst);
    var (c, i) := StmtsCode(Scope(g.className, SubTable(s), g.cst), g.gotoDepth, g.gotoInc, s.body);
    SeqAssoc(g.out, f, c);
    SubLength(s);
  }

  lemma SeqAssoc(a: seq<VmCmd>, b: seq<VmCmd>, c: seq<VmCmd>)
    ensures a + b + c == a + (b + c)
  {
  }

  /// The tokens of a declaration, counted piece by piece.
  lemma SubLength(s: SubDecl)
    ensures |SubLexemes(s)| == 3 + 1 + |ParamsLexemes(s.params)| + 2 + |VarDeclsLexemes(s.vars)| + |StmtsLexemes(s.body)| + 1
  {
  }

  /// `compSubroutine` on the tokens of a well-formed declaration: the
  /// table holds `this` for a method returning a class, then the
  /// parameters as arguments and the locals, and the code is the
  /// `function` line, the prologue and the statements' code.
  lemma SubroutineDecCompiles(ts: seq<Token>, g: Gen, s: SubDecl)
    requires SubAt(ts, g, s)
    ensures SubroutineDec(ts, g) == SubRan(g, s)
  {
    SubHead(ts, g, s);
    var g1 := g.(sst := ReceiverTable(s));
    SubSig(ts, g, s, g1);
    SignatureCompiles(ts, At(g1, g.pos + 3), s);
    SigRanIs(g, s, g1);
    assert ThisDeclared(ts, g) == g1;
    SubroutineDecSignature(ts, g);
  }
}

/// `compClass` of src/compiler.c on the tokens of a well-formed class: the
/// class-level declarations fill the class table (`ClassTable`), each
/// subroutine is compiled with a fresh table of its own (`SubCode`), and
/// the output is the subroutines' code in order (`SubsCode`).
module JackClassProps {
  import opened JackTokens
  import opened JackVm
  import opened JackSymbols
  import opened JackEngine
  import opened JackAst
  import opened JackEngineProps
  import opened JackStmtProps
  import opened JackDeclProps
  import opened JackRoutineProps

  // ------------------------------------------------------------ class-level declarations

  /// The state after `(',' name)*` of a class-level declaration.
  function ClassNamesRan(g: Gen, typ: string, kind: SymbolKind, ns: seq<string>): Gen
    requires WellSized(g.cst)
  {
    g.(pos := g.pos + 2 * |ns|, cst := DeclarePairs(g.cst, Named(ns, typ), kind))
  }

  /// The names loop of `compClassVarDec` declares each name in the class
  /// table, in order.
  lemma {:induction false} ClassVarNamesCompiles(ts: seq<Token>, g: Gen, typ: string, kind: SymbolKind, ns: seq<string>)
    requires NamesAt(ts, g, ns)
    ensures ClassVarNames(ts, g, typ, kind) == ClassNamesRan(g, typ, kind, ns)
    decreases |ns|
  {
    if ns != [] {
      var rest := NamesLexemes(ns[1..]);
      SpellsSplit(ts, g.pos, [SymbolLex(','), IdentifierLex(ns[0])], rest);
      Tok2(ts, g.pos, [SymbolLex(','), IdentifierLex(ns[0])]);
      var g1 := DeclareClass(At(g, g.pos + 2), ns[0], typ, kind);
      assert g.pos + 2 + 2 * |ns[1..]| == g.pos + 2 * |ns|;
      ClassVarNamesCompiles(ts, g1, typ, kind, ns[1..]);
      NamedTail(ns, typ);
    }
  }

  /// The state after the class-level declarations `ds`.
  function ClassVarsRan(g: Gen, ds: seq<ClassVarDecl>): Gen
    requires WellSized(g.cst)
  {
    g.(pos := g.pos + |ClassVarDeclsLexemes(ds)|, cst := ClassTable(g.cst, ds))
  }

  /// The tokens at `g` spell the declarations `ds`, and neither `static`
  /// nor `field` follows.
  ghost predicate ClassVarsAt(ts: seq<Token>, g: Gen, ds: seq<ClassVarDecl>)
  {
    Fits(ts, g) && !g.errno && ClassVarsOk(ds) && Spells(ts, g.pos, ClassVarDeclsLexemes(ds))
    && !Kw(ts, g.pos + |ClassVarDeclsLexemes(ds)|, Static) && !Kw(ts, g.pos + |ClassVarDeclsLexemes(ds)|, Field)
  }

  /// One pass of the `compClassVarDec` loop, unfolded, given what its
  /// names loop does.
  lemma ClassVarDecsUnfold(ts: seq<Token>, g: Gen, kind: SymbolKind, typ: string, first: string, h: Gen)
    requires Fits(ts, g) && (Kw(ts, g.pos, Static) || Kw(ts, g.pos, Field))
    requires kind == if Kw(ts, g.pos, Static) then StaticKind else FieldKind
    requires IsType(ts, g.pos + 1) && Ident(ts, g.pos + 1 + 1)
    requires typ == TypeName(ts, g.pos + 1) && first == Name(ts, g.pos + 1 + 1)
    requires ClassVarNames(ts, DeclareClass(At(g, g.pos + 1 + 2), first, typ, kind), typ, kind) == h
    requires Sym(ts, h.pos, ';')
    ensures ClassVarDecs(ts, g) == ClassVarDecs(ts, Skip(h, 1))
  {
  }

  /// The tokens at `p` spell the class-level declaration `d`, piece by
  /// piece.
  ghost predicate ClassVarDeclAt(ts: seq<Token>, p: nat, d: ClassVarDecl)
  {
    && Kw(ts, p, d.kind) && IsType(ts, p + 1) && TypeName(ts, p + 1) == TypeText(d.typ)
    && Ident(ts, p + 1 + 1) && Name(ts, p + 1 + 1) == d.first
    && Spells(ts, p + 3, NamesLexemes(d.more)) && Sym(ts, p + 3 + 2 * |d.more|, ';')
  }

  lemma ClassVarDeclSplit(ts: seq<Token>, p: nat, d: ClassVarDecl)
    requires Spells(ts, p, ClassVarDeclLexemes(d)) && TypeLexeme(d.typ)
    ensures ClassVarDeclAt(ts, p, d) && |ClassVarDeclLexemes(d)| == 4 + 2 * |d.more|
  {
    var head := [KeywordLex(d.kind), d.typ, IdentifierLex(d.first)];
    NamesLength(d.more);
    Split3(ts, p, head, NamesLexemes(d.more), [SymbolLex(';')], p + 3, p + 3 + 2 * |d.more|);
    Tok3(ts, p, head);
    Tok1(ts, p + 3 + 2 * |d.more|, SymbolLex(';'));
  }

  lemma ClassVarsOkTail(ds: seq<ClassVarDecl>)
    requires ds != [] && ClassVarsOk(ds)
    ensures TypeLexeme(ds[0].typ) && (ds[0].kind == Static || ds[0].kind == Field) && ClassVarsOk(ds[1..])
  {
    forall i | 0 <= i < |ds[1..]| ensures TypeLexeme(ds[1..][i].typ) && (ds[1..][i].kind == Static || ds[1..][i].kind == Field) {
      assert ds[1..][i] == ds[i + 1];
    }
  }

  /// Where the declarations after the first begin.
  lemma ClassVarDeclsTail(ts: seq<Token>, p: nat, ds: seq<ClassVarDecl>)
    requires ds != [] && Spells(ts, p, ClassVarDeclsLexemes(ds))
    ensures var q := p + |ClassVarDeclLexemes(ds[0])|;
      && Spells(ts, p, ClassVarDeclLexemes(ds[0])) && Spells(ts, q, ClassVarDeclsLexemes(ds[1..]))
      && q + |ClassVarDeclsLexemes(ds[1..])| == p + |ClassVarDeclsLexemes(ds)|
  {
    SpellsSplit(ts, p, ClassVarDeclLexemes(ds[0]), ClassVarDeclsLexemes(ds[1..]));
  }

  /// The tokens of the first declaration of a list.
  lemma ClassVarsFirst(ts: seq<Token>, g: Gen, ds: seq<ClassVarDecl>, g1: Gen, h: Gen)
    requires ClassVarsAt(ts, g, ds) && ds != []
    requires g1 == DeclareClass(At(g, g.pos + 1 + 2), ds[0].first, TypeText(ds[0].typ), ClassKind(ds[0].kind))
    requires h == ClassNamesRan(g1, TypeText(ds[0].typ), ClassKind(ds[0].kind), ds[0].more)
    ensures Kw(ts, g.pos, Static) || Kw(ts, g.pos, Field)
    ensures ClassKind(ds[0].kind) == if Kw(ts, g.pos, Static) then StaticKind else FieldKind
    ensures IsType(ts, g.pos + 1) && Ident(ts, g.pos + 1 + 1)
    ensures TypeText(ds[0].typ) == TypeName(ts, g.pos + 1) && ds[0].first == Name(ts, g.pos + 1 + 1)
    ensures NamesAt(ts, g1, ds[0].more) && Sym(ts, h.pos, ';')
  {
    ClassVarsOkTail(ds);
    ClassVarDeclsTail(ts, g.pos, ds);
    ClassVarDeclSplit(ts, g.pos, ds[0]);
  }

  /// The class table of one declaration, then of the rest.
  lemma ClassVarsRanHead(g: Gen, ds: seq<ClassVarDecl>, g1: Gen, h: Gen)
    requires WellSized(g.cst) && ds != []
    requires g1 == DeclareClass(At(g, g.pos + 1 + 2), ds[0].first, TypeText(ds[0].typ), ClassKind(ds[0].kind))
    requires h == ClassNamesRan(g1, TypeText(ds[0].typ), ClassKind(ds[0].kind), ds[0].more)
    ensures ClassVarsRan(Skip(h, 1), ds[1..]) == ClassVarsRan(g, ds)
  {
    var d := ds[0];
    var typ := TypeText(d.typ);
    var ns := [d.first] + d.more;
    assert ns[1..] == d.more;
    NamedTail(ns, typ);
    NamesLength(d.more);
    DeclarePairsAppend(g.cst, [(d.first, typ)], Named(d.more, typ), ClassKind(d.kind));
    assert DeclarePairs(g.cst, [(d.first, typ)], ClassKind(d.kind)) == Declare(g.cst, d.first, typ, ClassKind(d.kind));
  }

  /// What holds of the rest of a list after its first declaration.
  lemma ClassVarsNext(ts: seq<Token>, g: Gen, ds: seq<ClassVarDecl>, g1: Gen, h: Gen)
    requires ClassVarsAt(ts, g, ds) && ds != []
    requires g1 == DeclareClass(At(g, g.pos + 1 + 2), ds[0].first, TypeText(ds[0].typ), ClassKind(ds[0].kind))
    requires h == ClassNamesRan(g1, TypeText(ds[0].typ), ClassKind(ds[0].kind), ds[0].more)
    ensures ClassVarsAt(ts, Skip(h, 1), ds[1..])
    ensures ClassVarsRan(Skip(h, 1), ds[1..]) == ClassVarsRan(g, ds)
  {
    ClassVarsOkTail(ds);
    ClassVarDeclsTail(ts, g.pos, ds);
    ClassVarDeclSplit(ts, g.pos, ds[0]);
    ClassVarsRanHead(g, ds, g1, h);
  }

  /// One pass of the `compClassVarDec` loop over the first declaration.
  lemma ClassVarDecsStep(ts: seq<Token>, g: Gen, ds: seq<ClassVarDecl>, g1: Gen, h: Gen)
    requires ClassVarsAt(ts, g, ds) && ds != []
    requires g1 == DeclareClass(At(g, g.pos + 1 + 2), ds[0].first, TypeText(ds[0].typ), ClassKind(ds[0].kind))
    requires h == ClassNamesRan(g1, TypeText(ds[0].typ), ClassKind(ds[0].kind), ds[0].more)
    ensures Fits(ts, Skip(h, 1)) && ClassVarDecs(ts, g) == ClassVarDecs(ts, Skip(h, 1))
  {
    ClassVarsFirst(ts, g, ds, g1, h);
    ClassVarNamesCompiles(ts, g1, TypeText(ds[0].typ), ClassKind(ds[0].kind), ds[0].more);
    ClassVarDecsUnfold(ts, g, ClassKind(ds[0].kind), TypeText(ds[0].typ), ds[0].first, h);
  }

  /// `compClassVarDec` on the declarations `ds`: each declared name is
  /// recorded in the class table, statics and fields each numbered by
  /// their own counter.
  lemma {:induction false} ClassVarDecsCompiles(ts: seq<Token>, g: Gen, ds: seq<ClassVarDecl>)
    requires ClassVarsAt(ts, g, ds)
    ensures ClassVarDecs(ts, g) == ClassVarsRan(g, ds)
    decreases |ds|
  {
    if ds != [] {
      var g1 := DeclareClass(At(g, g.pos + 1 + 2), ds[0].first, TypeText(ds[0].typ), ClassKind(ds[0].kind));
      var h := ClassNamesRan(g1, TypeText(ds[0].typ), ClassKind(ds[0].kind), ds[0].more);
      ClassVarsNext(ts, g, ds, g1, h);
      ClassVarDecsStep(ts, g, ds, g1, h);
      ClassVarDecsCompiles(ts, Skip(h, 1), ds[1..]);
    }
  }

  // ------------------------------------------------------------ subroutines

  /// The state after the subroutines `ss`: their tokens read, their
  /// reference code printed one after another, and a fresh table.
  function SubsRan(g: Gen, ss: seq<SubDecl>): Gen
  {
    var (c, i) := SubsCode(g.className, g.cst, g.gotoDepth, g.gotoInc, ss);
    g.(pos := g.pos + |SubsLexemes(ss)|, out := g.out + c, gotoInc := i, sst := EmptyTable())
  }

  /// The tokens at `g` spell the well-formed subroutines `ss`, and no
  /// other subroutine follows.
  ghost predicate SubsAt(ts: seq<Token>, g: Gen, ss: seq<SubDecl>)
  {
    Fits(ts, g) && !g.errno && SubsOk(g.className, g.cst, ss)
    && Spells(ts, g.pos, SubsLexemes(ss)) && !StartsSubroutine(ts, g.pos + |SubsLexemes(ss)|)
  }

  /// One pass of the `compSubroutine` loop, unfolded.
  lemma SubroutinesUnfold(ts: seq<Token>, g: Gen, r: Gen)
    requires Fits(ts, g) && StartsSubroutine(ts, g.pos)
    requires Subroutines(ts, SubroutineDec(ts, g.(sst := EmptyTable()))) == r
    ensures Subroutines(ts, g) == r
  {
  }

  lemma SubsOkTail(cls: string, cst: SymTab, ss: seq<SubDecl>)
    requires ss != [] && SubsOk(cls, cst, ss)
    ensures SubOk(ss[0]) && StmtsOk(Scope(cls, SubTable(ss[0]), cst), ss[0].body) && SubsOk(cls, cst, ss[1..])
  {
    forall i | 0 <= i < |ss[1..]|
      ensures SubOk(ss[1..][i]) && StmtsOk(Scope(cls, SubTable(ss[1..][i]), cst), ss[1..][i].body)
    {
      assert ss[1..][i] == ss[i + 1];
    }
  }

  /// Where the subroutines after the first begin.
  lemma SubsTail(ts: seq<Token>, p: nat, ss: seq<SubDecl>)
    requires ss != [] && Spells(ts, p, SubsLexemes(ss))
    ensures var q := p + |SubLexemes(ss[0])|;
      && Spells(ts, p, SubLexemes(ss[0])) && Spells(ts, q, SubsLexemes(ss[1..]))
      && q + |SubsLexemes(ss[1..])| == p + |SubsLexemes(ss)|
  {
    SpellsSplit(ts, p, SubLexemes(ss[0]), SubsLexemes(ss[1..]));
  }

  /// The first subroutine of a list, at the fresh table.
  lemma SubsFirst(ts: seq<Token>, g: Gen, ss: seq<SubDecl>)
    requires SubsAt(ts, g, ss) && ss != []
    ensures SubAt(ts, g.(sst := EmptyTable()), ss[0])
  {
    SubsOkTail(g.className, g.cst, ss);
    SubsTail(ts, g.pos, ss);
  }

  /// The rest of a list, after the first subroutine.
  lemma SubsNext(ts: seq<Token>, g: Gen, ss: seq<SubDecl>, r: Gen)
    requires SubsAt(ts, g, ss) && ss != []
    requires r.pos == g.pos + |SubLexemes(ss[0])| && r.className == g.className && r.cst == g.cst
    requires !r.errno && WellSized(r.sst)
    ensures SubsAt(ts, r, ss[1..])
  {
    SubsOkTail(g.className, g.cst, ss);
    SubsNextTokens(ts, g.pos, ss, r.pos);
  }

  /// The tokens of the rest of a list.
  lemma SubsNextTokens(ts: seq<Token>, p: nat, ss: seq<SubDecl>, q: nat)
    requires ss != [] && Spells(ts, p, SubsLexemes(ss)) && !StartsSubroutine(ts, p + |SubsLexemes(ss)|)
    requires q == p + |SubLexemes(ss[0])|
    ensures q <= |ts| && Spells(ts, q, SubsLexemes(ss[1..])) && !StartsSubroutine(ts, q + |SubsLexemes(ss[1..])|)
  {
    assert SubsLexemes(ss) == SubLexemes(ss[0]) + SubsLexemes(ss[1..]);
    SpellsRest(ts, p, SubLexemes(ss[0]), SubsLexemes(ss[1..]));
  }

  /// The tail of spelled lexemes, and what follows it.
  lemma SpellsRest(ts: seq<Token>, p: nat, a: seq<Lexeme>, b: seq<Lexeme>)
    requires Spells(ts, p, a + b) && !StartsSubroutine(ts, p + |a + b|)
    ensures p + |a| <= |ts| && Spells(ts, p + |a|, b) && !StartsSubroutine(ts, p + |a| + |b|)
  {
    SpellsSplit(ts, p, a, b);
    SpellsEnd(ts, p + |a|, b);
  }

  /// A subroutine leaves the class alone.
  lemma SubRanFrame(g: Gen, s: SubDecl)
    ensures var r := SubRan(g, s);
      r.pos == g.pos + |SubLexemes(s)| && r.className == g.className && r.cst == g.cst
      && r.errno == g.errno && WellSized(r.sst)
  {
  }

  /// The reference code of a list: the first subroutine's, then the
  /// rest's.
  lemma SubsRanHead(g: Gen, ss: seq<SubDecl>)
    requires ss != []
    ensures SubsRan(SubRan(g.(sst := EmptyTable()), ss[0]), ss[1..]) == SubsRan(g, ss)
  {
    var sc := SubCode(g.className, g.cst, g.gotoDepth, g.gotoInc, ss[0]);
    var rest := SubsCode(g.className, g.cst, g.gotoDepth, sc.1, ss[1..]);
    SeqAssoc(g.out, sc.0, rest.0);
  }

  /// `compSubroutine` on the tokens of the subroutines `ss`: each is
  /// compiled with a fresh table, and the code is theirs in order.
  lemma {:induction false} SubroutinesCompiles(ts: seq<Token>, g: Gen, ss: seq<SubDecl>)
    requires SubsAt(ts, g, ss)
    ensures Subroutines(ts, g) == SubsRan(g, ss)
    decreases |ss|
  {
    if ss == [] {
      assert g.out + [] == g.out;
    } else {
      var g0 := g.(sst := EmptyTable());
      SubsFirst(ts, g, ss);
      SubRanFrame(g0, ss[0]);
      SubsNext(ts, g, ss, SubRan(g0, ss[0]));
      SubroutineDecCompiles(ts, g0, ss[0]);
      SubroutinesCompiles(ts, SubRan(g0, ss[0]), ss[1..]);
      SubsRanHead(g, ss);
      SubroutinesUnfold(ts, g, SubsRan(g, ss));
    }
  }

  // ------------------------------------------------------------ classes

  /// A class whose declarations are well formed and whose subroutines'
  /// statements are well formed in their scopes.
  ghost predicate ClassOk(c: ClassDecl)
  {
    ClassVarsOk(c.vars) && SubsOk(c.name, ClassTable(EmptyTable(), c.vars), c.subs)
  }

  /// The state after a class: everything up to its closing '}' read (the
  /// '}' itself is left), the class name and class table set, and the
  /// code of its subroutines printed.
  function ClassRan(g: Gen, c: ClassDecl): Gen
  {
    var cst := ClassTable(EmptyTable(), c.vars);
    var (code, i) := SubsCode(c.name, cst, g.gotoDepth, g.gotoInc, c.subs);
    g.(pos := g.pos + 3 + |ClassVarDeclsLexemes(c.vars)| + |SubsLexemes(c.subs)|, out := g.out + code, gotoInc := i,
       className := c.name, cst := cst, sst := EmptyTable())
  }

  /// The tokens at `g` spell the well-formed class `c`.
  ghost predicate ClassAt(ts: seq<Token>, g: Gen, c: ClassDecl)
  {
    Fits(ts, g) && !g.errno && ClassOk(c) && Spells(ts, g.pos, ClassLexemes(c))
  }

  /// What `compClass` needs of its parts to read the class `c`: its
  /// head, its declarations read into `ClassVarsDone`, its subroutines
  /// compiled into `ClassRan`, and the closing '}'.
  ghost predicate ClassParts(ts: seq<Token>, g: Gen, c: ClassDecl)
  {
    && Fits(ts, g) && Kw(ts, g.pos, Class) && Ident(ts, g.pos + 1) && Sym(ts, g.pos + 2, '{')
    && ClassVarDecs(ts, Skip(g.(cst := EmptyTable()).(className := Name(ts, g.pos + 1), pos := g.pos + 2), 1))
       == ClassVarsDone(g, c)
    && Subroutines(ts, ClassVarsDone(g, c)) == ClassRan(g, c)
    && ClassCloses(ts, ClassRan(g, c).pos) && !ClassRan(g, c).errno
  }

  /// `compClass`, unfolded, given what its parts do.
  lemma CompileClassUnfold(ts: seq<Token>, g: Gen, c: ClassDecl)
    requires ClassParts(ts, g, c)
    ensures CompileClass(ts, g) == ClassRan(g, c)
  {
    assert Check(ClassRan(g, c), ClassProd) == ClassRan(g, c);
  }

  /// The tokens `class name '{' a b '}'`.
  lemma ClassSplit(ts: seq<Token>, p: nat, name: string, a: seq<Lexeme>, b: seq<Lexeme>)
    requires Spells(ts, p, [KeywordLex(Class), IdentifierLex(name), SymbolLex('{')] + a + b + [SymbolLex('}')])
    ensures Kw(ts, p, Class) && Ident(ts, p + 1) && Name(ts, p + 1) == name && Sym(ts, p + 2, '{')
    ensures Spells(ts, p + 3, a)
    ensures Spells(ts, p + 3 + |a|, b + [SymbolLex('}')])
    ensures Spells(ts, p + 3 + |a|, b)
    ensures Sym(ts, p + 3 + |a| + |b|, '}')
  {
    var head := [KeywordLex(Class), IdentifierLex(name), SymbolLex('{')];
    assert head + a + b + [SymbolLex('}')] == head + (a + (b + [SymbolLex('}')]));
    SpellsSplit(ts, p, head, a + (b + [SymbolLex('}')]));
    Tok3(ts, p, head);
    SpellsSplit(ts, p + 3, a, b + [SymbolLex('}')]);
    SpellsSplit(ts, p + 3 + |a|, b, [SymbolLex('}')]);
    Tok1(ts, p + 3 + |a| + |b|, SymbolLex('}'));
  }

  /// What follows the declarations, `b '}'` where `b` does not start with
  /// `static` or `field`, starts no declaration.
  lemma ClassVarsEnd(ts: seq<Token>, q: nat, b: seq<Lexeme>)
    requires Spells(ts, q, b + [SymbolLex('}')])
    requires b == [] || (b[0] != KeywordLex(Static) && b[0] != KeywordLex(Field))
    ensures !Kw(ts, q, Static) && !Kw(ts, q, Field)
  {
    SpellsAt(ts, q, b + [SymbolLex('}')], 0);
  }

  /// A list of subroutines starts with a subroutine keyword.
  lemma SubsHead(ss: seq<SubDecl>)
    requires ss != [] ==> SubOk(ss[0])
    ensures SubsLexemes(ss) == [] || (SubsLexemes(ss)[0] != KeywordLex(Static) && SubsLexemes(ss)[0] != KeywordLex(Field))
  {
    if ss != [] {
      assert SubsLexemes(ss)[0] == KeywordLex(ss[0].kind);
    }
  }

  /// The declarations of a class, at the state after its '{'.
  lemma ClassVarsPiece(ts: seq<Token>, g: Gen, c: ClassDecl)
    requires Fits(ts, g) && !g.errno && ClassVarsOk(c.vars) && Spells(ts, g.pos + 3, ClassVarDeclsLexemes(c.vars))
    requires !Kw(ts, g.pos + 3 + |ClassVarDeclsLexemes(c.vars)|, Static)
    requires !Kw(ts, g.pos + 3 + |ClassVarDeclsLexemes(c.vars)|, Field)
    ensures ClassVarsAt(ts, Skip(g.(cst := EmptyTable()).(className := c.name, pos := g.pos + 2), 1), c.vars)
  {
    SpellsEnd(ts, g.pos + 3, ClassVarDeclsLexemes(c.vars));
  }

  /// The '}' that closes a class starts no subroutine.
  lemma CloseStartsNothing(ts: seq<Token>, q: nat)
    requires Sym(ts, q, '}')
    ensures !StartsSubroutine(ts, q)
  {
  }

  /// The state after a class's '{' and its declarations: the class name
  /// and the class table set.
  function ClassVarsDone(g: Gen, c: ClassDecl): Gen
  {
    g.(pos := g.pos + 3 + |ClassVarDeclsLexemes(c.vars)|, className := c.name, cst := ClassTable(EmptyTable(), c.vars))
  }

  /// `ClassVarsRan` from the state after '{'.
  lemma ClassVarsDoneIs(g: Gen, c: ClassDecl)
    ensures ClassVarsRan(Skip(g.(cst := EmptyTable()).(className := c.name, pos := g.pos + 2), 1), c.vars)
            == ClassVarsDone(g, c)
  {
  }

  /// The declarations of a class, read by `compClassVarDec` after the
  /// class's name and '{'.
  lemma ClassFront(ts: seq<Token>, g: Gen, c: ClassDecl)
    requires Fits(ts, g) && !g.errno && ClassVarsOk(c.vars) && Spells(ts, g.pos + 3, ClassVarDeclsLexemes(c.vars))
    requires !Kw(ts, g.pos + 3 + |ClassVarDeclsLexemes(c.vars)|, Static)
    requires !Kw(ts, g.pos + 3 + |ClassVarDeclsLexemes(c.vars)|, Field)
    requires Ident(ts, g.pos + 1) && Name(ts, g.pos + 1) == c.name
    ensures ClassVarDecs(ts, Skip(g.(cst := EmptyTable()).(className := Name(ts, g.pos + 1), pos := g.pos + 2), 1))
            == ClassVarsDone(g, c)
  {
    ClassVarsPiece(ts, g, c);
    ClassVarDecsCompiles(ts, Skip(g.(cst := EmptyTable()).(className := c.name, pos := g.pos + 2), 1), c.vars);
    ClassVarsDoneIs(g, c);
  }

  /// The tokens of the declarations of a class.
  lemma ClassVarsTokens(ts: seq<Token>, g: Gen, c: ClassDecl)
    requires (c.subs != [] ==> SubOk(c.subs[0])) && Spells(ts, g.pos, ClassLexemes(c))
    ensures Spells(ts, g.pos + 3, ClassVarDeclsLexemes(c.vars))
    ensures !Kw(ts, g.pos + 3 + |ClassVarDeclsLexemes(c.vars)|, Static)
    ensures !Kw(ts, g.pos + 3 + |ClassVarDeclsLexemes(c.vars)|, Field)
  {
    SubsHead(c.subs);
    ClassSplit(ts, g.pos, c.name, ClassVarDeclsLexemes(c.vars), SubsLexemes(c.subs));
    ClassVarsEnd(ts, g.pos + 3 + |ClassVarDeclsLexemes(c.vars)|, SubsLexemes(c.subs));
  }

  /// The head of a class: `class`, its name and '{'.
  lemma ClassHeadTokens(ts: seq<Token>, g: Gen, c: ClassDecl)
    requires Spells(ts, g.pos, ClassLexemes(c))
    ensures Kw(ts, g.pos, Class) && Ident(ts, g.pos + 1) && Name(ts, g.pos + 1) == c.name && Sym(ts, g.pos + 2, '{')
  {
    ClassSplit(ts, g.pos, c.name, ClassVarDeclsLexemes(c.vars), SubsLexemes(c.subs));
  }

  /// The tokens of the subroutines of a class and its '}'.
  lemma ClassSubsTokens(ts: seq<Token>, g: Gen, c: ClassDecl)
    requires Spells(ts, g.pos, ClassLexemes(c))
    ensures Spells(ts, g.pos + 3 + |ClassVarDeclsLexemes(c.vars)|, SubsLexemes(c.subs))
    ensures Sym(ts, g.pos + 3 + |ClassVarDeclsLexemes(c.vars)| + |SubsLexemes(c.subs)|, '}')
  {
    ClassSplit(ts, g.pos, c.name, ClassVarDeclsLexemes(c.vars), SubsLexemes(c.subs));
  }

  /// A '}' closes a class.
  lemma SymCloses(ts: seq<Token>, q: nat)
    requires Sym(ts, q, '}')
    ensures ClassCloses(ts, q)
  {
  }

  /// Where a class leaves the cursor.
  lemma ClassRanPos(g: Gen, c: ClassDecl)
    ensures ClassRan(g, c).pos == g.pos + 3 + |ClassVarDeclsLexemes(c.vars)| + |SubsLexemes(c.subs)|
    ensures ClassRan(g, c).errno == g.errno
  {
  }

  /// What the subroutines leave is what the reference gives the class.
  lemma ClassRanIs(g: Gen, c: ClassDecl)
    ensures SubsRan(ClassVarsDone(g, c), c.subs) == ClassRan(g, c)
  {
  }

  /// The subroutines of a class, at the state after its declarations.
  lemma ClassSubs(ts: seq<Token>, g: Gen, c: ClassDecl)
    requires Fits(ts, g) && !g.errno && SubsOk(c.name, ClassTable(EmptyTable(), c.vars), c.subs)
    requires Spells(ts, g.pos + 3 + |ClassVarDeclsLexemes(c.vars)|, SubsLexemes(c.subs))
    requires Sym(ts, g.pos + 3 + |ClassVarDeclsLexemes(c.vars)| + |SubsLexemes(c.subs)|, '}')
    ensures SubsAt(ts, ClassVarsDone(g, c), c.subs)
  {
    var h := ClassVarsDone(g, c);
    var q := g.pos + 3 + |ClassVarDeclsLexemes(c.vars)|;
    assert h.pos == q && h.className == c.name && h.cst == ClassTable(EmptyTable(), c.vars) && h.sst == g.sst && !h.errno;
    SpellsEnd(ts, q, SubsLexemes(c.subs));
    CloseStartsNothing(ts, q + |SubsLexemes(c.subs)|);
    assert Fits(ts, h);
  }

  /// The subroutines of a class and its '}'.
  lemma ClassBack(ts: seq<Token>, g: Gen, c: ClassDecl)
    requires SubsAt(ts, ClassVarsDone(g, c), c.subs) && !g.errno
    requires Sym(ts, g.pos + 3 + |ClassVarDeclsLexemes(c.vars)| + |SubsLexemes(c.subs)|, '}')
    ensures Subroutines(ts, ClassVarsDone(g, c)) == ClassRan(g, c)
    ensures ClassCloses(ts, ClassRan(g, c).pos) && !ClassRan(g, c).errno
  {
    SubroutinesCompiles(ts, ClassVarsDone(g, c), c.subs);
    ClassRanIs(g, c);
    ClassRanPos(g, c);
    SymCloses(ts, g.pos + 3 + |ClassVarDeclsLexemes(c.vars)| + |SubsLexemes(c.subs)|);
  }

  /// The parts of a well-formed class.
  lemma ClassPartsHold(ts: seq<Token>, g: Gen, c: ClassDecl)
    requires ClassAt(ts, g, c)
    ensures ClassParts(ts, g, c)
  {
    if c.subs != [] {
      assert SubOk(c.subs[0]);
    }
    ClassHeadTokens(ts, g, c);
    ClassVarsTokens(ts, g, c);
    ClassSubsTokens(ts, g, c);
    ClassFront(ts, g, c);
    ClassSubs(ts, g, c);
    ClassBack(ts, g, c);
  }

  /// `compClass` on the tokens of a well-formed class: the class table is
  /// `ClassTable`, and the code is that of the subroutines, in order.
  lemma CompileClassCompiles(ts: seq<Token>, g: Gen, c: ClassDecl)
    requires ClassAt(ts, g, c)
    ensures CompileClass(ts, g) == ClassRan(g, c)
  {
    ClassPartsHold(ts, g, c);
    CompileClassUnfold(ts, g, c);
  }
}

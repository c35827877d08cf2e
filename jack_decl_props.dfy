/// What the declaration productions of src/compiler.c are proved to do: on
/// the tokens of a well-formed class `compClass` records the class-level
/// names in the class table, gives each subroutine a fresh table holding
/// `this`, its parameters and its locals, and prints for each subroutine
/// the `function` line, the prologue and the code of its statements.
module JackDeclProps {
  import opened CLib
  import opened JackTokens
  import opened JackLexer
  import opened JackSymbols
  import opened JackVm
  import opened JackEngine
  import opened JackAst
  import opened JackEngineProps
  import opened JackStmtProps
  import Ds

  // ------------------------------------------------------------ tables

  lemma {:induction false} DeclarePairsAppend(t: SymTab, a: seq<(string, string)>, b: seq<(string, string)>,
                                               kind: SymbolKind)
    requires WellSized(t)
    ensures DeclarePairs(t, a + b, kind) == DeclarePairs(DeclarePairs(t, a, kind), b, kind)
    decreases |a|
  {
    if a == [] {
      assert a + b == b;
    } else {
      assert (a + b)[0] == a[0] && (a + b)[1..] == a[1..] + b;
      DeclarePairsAppend(Declare(t, a[0].0, a[0].1, kind), a[1..], b, kind);
    }
  }

  /// `ps[i]` is the first pair naming `ps[i].0`.
  predicate FirstAt(ps: seq<(string, string)>, i: nat)
    requires i < |ps|
  {
    forall j :: 0 <= j < i ==> ps[j].0 != ps[i].0
  }

  /// No pair of `ps` names `n`.
  predicate Unnamed(ps: seq<(string, string)>, n: string)
  {
    forall j :: 0 <= j < |ps| ==> ps[j].0 != n
  }

  lemma UnnamedTail(ps: seq<(string, string)>, n: string)
    requires ps != [] && Unnamed(ps, n)
    ensures ps[0].0 != n && Unnamed(ps[1..], n)
  {
    forall j | 0 <= j < |ps| - 1 ensures ps[1..][j].0 != n {
      assert ps[1..][j] == ps[j + 1];
    }
  }

  lemma FirstAtTail(ps: seq<(string, string)>, i: nat)
    requires 0 < i < |ps| && FirstAt(ps, i)
    ensures ps[i].0 != ps[0].0 && FirstAt(ps[1..], i - 1) && ps[1..][i - 1] == ps[i]
  {
    forall j | 0 <= j < i - 1 ensures ps[1..][j].0 != ps[1..][i - 1].0 {
      assert ps[1..][j] == ps[j + 1];
    }
  }

  /// Far from `size_t`'s limit, `st_set` always goes through.
  lemma DeclareRoom(t: SymTab, name: string, typ: string, kind: SymbolKind)
    requires WellSized(t) && |t.entries| < Ds.SIZE_LIMIT / 4
    ensures !(|t.entries| >= t.capacity / 2 && 2 * t.capacity >= Ds.SIZE_LIMIT)
  {
    assert t.capacity % 2 == 0;
  }

  /// A run of `st_set` calls of one kind, far from `size_t`'s limit: the
  /// kind's counter rises by one per call, repetitions included, the other
  /// counters stay; the first pair naming a new name gives it the
  /// counter's value at that point; names already present and names not in
  /// the run keep their records.
  lemma {:induction false} DeclarePairsSpec(t: SymTab, ps: seq<(string, string)>, kind: SymbolKind)
    requires WellSized(t) && |t.entries| + |ps| < Ds.SIZE_LIMIT / 4
    ensures var r := DeclarePairs(t, ps, kind);
      && Count(r, kind) == Count(t, kind) + |ps|
      && (forall k :: k != kind ==> Count(r, k) == Count(t, k))
      && (forall n | n in t.entries :: Lookup(r, n) == Lookup(t, n))
      && (forall n | Unnamed(ps, n) :: Lookup(r, n) == Lookup(t, n))
      && (forall i | 0 <= i < |ps| && FirstAt(ps, i) && ps[i].0 !in t.entries ::
            Lookup(r, ps[i].0) == Some(Symbol(ps[i].1, kind, Count(t, kind) + i)))
      && |r.entries| <= |t.entries| + |ps|
    decreases |ps|
  {
    if ps != [] {
      var t1 := Declare(t, ps[0].0, ps[0].1, kind);
      DeclareSpec(t, ps[0].0, ps[0].1, kind);
      DeclareRoom(t, ps[0].0, ps[0].1, kind);
      DeclarePairsSpec(t1, ps[1..], kind);
      var r := DeclarePairs(t, ps, kind);
      assert r == DeclarePairs(t1, ps[1..], kind);
      forall n | n in t.entries ensures Lookup(r, n) == Lookup(t, n) {
        assert n in t1.entries;
      }
      forall n | Unnamed(ps, n) ensures Lookup(r, n) == Lookup(t, n) {
        UnnamedTail(ps, n);
      }
      forall i | 0 <= i < |ps| && FirstAt(ps, i) && ps[i].0 !in t.entries
        ensures Lookup(r, ps[i].0) == Some(Symbol(ps[i].1, kind, Count(t, kind) + i))
      {
        if i == 0 {
          assert ps[0].0 in t1.entries;
        } else {
          FirstAtTail(ps, i);
          assert ps[i].0 !in t1.entries;
        }
      }
    }
  }

  // ------------------------------------------------------------ var declarations

  lemma {:induction false} NamedTail(ns: seq<string>, typ: string)
    requires ns != []
    ensures Named(ns, typ) == [(ns[0], typ)] + Named(ns[1..], typ)
  {
  }

  lemma {:induction false} NamesLength(ns: seq<string>)
    ensures |NamesLexemes(ns)| == 2 * |ns|
    decreases |ns|
  {
    if ns != [] {
      NamesLength(ns[1..]);
    }
  }

  /// The type a type lexeme at `p` records.
  lemma TypeAt(ts: seq<Token>, p: nat, l: Lexeme)
    requires p < |ts| && ts[p].lex == l && TypeLexeme(l)
    ensures IsType(ts, p) && TypeName(ts, p) == TypeText(l)
  {
  }

  /// The state after the `(',' name)*` of a declaration of type `typ`.
  function NamesRan(g: Gen, typ: string, ns: seq<string>): Gen
    requires WellSized(g.sst)
  {
    g.(pos := g.pos + 2 * |ns|, sst := DeclarePairs(g.sst, Named(ns, typ), LocalKind))
  }

  /// The tokens at `g` spell `(',' name)*` for the names `ns`, and no
  /// ',' follows.
  ghost predicate NamesAt(ts: seq<Token>, g: Gen, ns: seq<string>)
  {
    Fits(ts, g) && Spells(ts, g.pos, NamesLexemes(ns)) && !Sym(ts, g.pos + 2 * |ns|, ',')
  }

  /// The names loop of `compVarDec` on `(',' name)*` declares each name a
  /// local, in order.
  lemma {:induction false} VarNamesCompiles(ts: seq<Token>, g: Gen, typ: string, ns: seq<string>, n: nat)
    requires NamesAt(ts, g, ns)
    ensures VarNames(ts, g, typ, n) == (NamesRan(g, typ, ns), n + |ns|)
    decreases |ns|
  {
    if ns != [] {
      var rest := NamesLexemes(ns[1..]);
      SpellsSplit(ts, g.pos, [SymbolLex(','), IdentifierLex(ns[0])], rest);
      Tok2(ts, g.pos, [SymbolLex(','), IdentifierLex(ns[0])]);
      var g1 := DeclareSub(At(g, g.pos + 2), ns[0], typ, LocalKind);
      assert g.pos + 2 + 2 * |ns[1..]| == g.pos + 2 * |ns|;
      VarNamesCompiles(ts, g1, typ, ns[1..], n + 1);
      NamedTail(ns, typ);
    }
  }

  lemma VarDeclSplit(ts: seq<Token>, p: nat, d: VarDecl)
    requires Spells(ts, p, VarDeclLexemes(d)) && TypeLexeme(d.typ)
    ensures VarDeclAt(ts, p, d) && |VarDeclLexemes(d)| == 4 + 2 * |d.more|
  {
    var head := [KeywordLex(Var), d.typ, IdentifierLex(d.first)];
    NamesLength(d.more);
    Split3(ts, p, head, NamesLexemes(d.more), [SymbolLex(';')], p + 3, p + 3 + 2 * |d.more|);
    Tok3(ts, p, head);
    Tok1(ts, p + 3 + 2 * |d.more|, SymbolLex(';'));
  }

  /// The pairs of one declaration, then of the rest.
  lemma VarPairsHead(ds: seq<VarDecl>)
    requires ds != []
    ensures VarPairs(ds) == [(ds[0].first, TypeText(ds[0].typ))] + Named(ds[0].more, TypeText(ds[0].typ)) + VarPairs(ds[1..])
  {
    var ns := [ds[0].first] + ds[0].more;
    assert ns[1..] == ds[0].more;
    NamedTail(ns, TypeText(ds[0].typ));
  }

  /// None of the lexemes of a statement sequence, nor the '}' after it,
  /// starts a declaration.
  lemma StmtsLead(ss: seq<StmtNode>, ts: seq<Token>, q: nat)
    requires Spells(ts, q, StmtsLexemes(ss) + [SymbolLex('}')])
    ensures !Kw(ts, q, Var) && !Kw(ts, q, Static) && !Kw(ts, q, Field)
  {
    SpellsAt(ts, q, StmtsLexemes(ss) + [SymbolLex('}')], 0);
    if ss != [] {
      StmtLead(ss[0]);
      assert (StmtsLexemes(ss) + [SymbolLex('}')])[0] == StmtLexemes(ss[0])[0];
    }
  }

  /// The state after the `var` declarations `ds`: their tokens read,
  /// each name declared a local in order, and `n` advanced by one per
  /// name, repetitions included.
  function VarsRan(g: Gen, ds: seq<VarDecl>, n: nat): (Gen, nat)
    requires WellSized(g.sst)
  {
    (g.(pos := g.pos + |VarDeclsLexemes(ds)|, sst := DeclarePairs(g.sst, VarPairs(ds), LocalKind)), n + |VarPairs(ds)|)
  }

  /// The tokens at `g` spell the declarations `ds`, and no `var` follows.
  ghost predicate VarsAt(ts: seq<Token>, g: Gen, ds: seq<VarDecl>)
  {
    Fits(ts, g) && !g.errno && VarsOk(ds)
    && Spells(ts, g.pos, VarDeclsLexemes(ds)) && !Kw(ts, g.pos + |VarDeclsLexemes(ds)|, Var)
  }

  /// The tokens at `p` spell the declaration `d`, piece by piece.
  ghost predicate VarDeclAt(ts: seq<Token>, p: nat, d: VarDecl)
  {
    && Kw(ts, p, Var) && IsType(ts, p + 1) && TypeName(ts, p + 1) == TypeText(d.typ)
    && Ident(ts, p + 2) && Name(ts, p + 2) == d.first
    && Spells(ts, p + 3, NamesLexemes(d.more)) && Sym(ts, p + 3 + 2 * |d.more|, ';')
  }

  /// One pass of the `compVarDec` loop, unfolded, given what its names
  /// loop does.
  lemma VarDecsUnfold(ts: seq<Token>, g: Gen, n: nat, typ: string, first: string, h: Gen, m: nat)
    requires Fits(ts, g) && Kw(ts, g.pos, Var) && IsType(ts, g.pos + 1) && Ident(ts, g.pos + 2)
    requires typ == TypeName(ts, g.pos + 1) && first == Name(ts, g.pos + 2)
    requires VarNames(ts, DeclareSub(At(g, g.pos + 3), first, typ, LocalKind), typ, n + 1) == (h, m)
    requires Sym(ts, h.pos, ';')
    ensures VarDecs(ts, g, n) == VarDecs(ts, Skip(h, 1), m)
  {
    assert Kw(ts, g.pos, Var) == true && IsType(ts, g.pos + 1) == true && Ident(ts, g.pos + 1 + 1) == true;
    assert DeclareSub(At(g, g.pos + 1 + 2), Name(ts, g.pos + 1 + 1), TypeName(ts, g.pos + 1), LocalKind)
        == DeclareSub(At(g, g.pos + 3), first, typ, LocalKind);
  }

  /// The pairs, and the lexemes, of the first declaration and then the rest.
  lemma VarsRanHead(g: Gen, ds: seq<VarDecl>, n: nat, g1: Gen, h: Gen)
    requires WellSized(g.sst) && ds != []
    requires g1 == DeclareSub(At(g, g.pos + 3), ds[0].first, TypeText(ds[0].typ), LocalKind)
    requires h == NamesRan(g1, TypeText(ds[0].typ), ds[0].more)
    ensures VarsRan(Skip(h, 1), ds[1..], n + 1 + |ds[0].more|) == VarsRan(g, ds, n)
  {
    var d := ds[0];
    var typ := TypeText(d.typ);
    VarPairsHead(ds);
    var head := [(d.first, typ)] + Named(d.more, typ);
    NamesLength(d.more);
    DeclarePairsAppend(g.sst, head, VarPairs(ds[1..]), LocalKind);
    DeclarePairsAppend(g.sst, [(d.first, typ)], Named(d.more, typ), LocalKind);
    assert DeclarePairs(g.sst, [(d.first, typ)], LocalKind) == Declare(g.sst, d.first, typ, LocalKind);
  }

  lemma VarsOkTail(ds: seq<VarDecl>)
    requires ds != [] && VarsOk(ds)
    ensures TypeLexeme(ds[0].typ) && VarsOk(ds[1..])
  {
    forall i | 0 <= i < |ds[1..]| ensures TypeLexeme(ds[1..][i].typ) {
      assert ds[1..][i] == ds[i + 1];
    }
  }

  /// Where the declarations after the first begin.
  lemma VarDeclsTail(ts: seq<Token>, p: nat, ds: seq<VarDecl>)
    requires ds != [] && Spells(ts, p, VarDeclsLexemes(ds))
    ensures var q := p + |VarDeclLexemes(ds[0])|;
      && Spells(ts, p, VarDeclLexemes(ds[0])) && Spells(ts, q, VarDeclsLexemes(ds[1..]))
      && q + |VarDeclsLexemes(ds[1..])| == p + |VarDeclsLexemes(ds)|
  {
    SpellsSplit(ts, p, VarDeclLexemes(ds[0]), VarDeclsLexemes(ds[1..]));
  }

  /// The tokens of the first declaration of a list.
  lemma VarsFirst(ts: seq<Token>, g: Gen, ds: seq<VarDecl>, g1: Gen, h: Gen)
    requires VarsAt(ts, g, ds) && ds != []
    requires g1 == DeclareSub(At(g, g.pos + 3), ds[0].first, TypeText(ds[0].typ), LocalKind)
    requires h == NamesRan(g1, TypeText(ds[0].typ), ds[0].more)
    ensures Kw(ts, g.pos, Var) && IsType(ts, g.pos + 1) && Ident(ts, g.pos + 2)
    ensures TypeText(ds[0].typ) == TypeName(ts, g.pos + 1) && ds[0].first == Name(ts, g.pos + 2)
    ensures NamesAt(ts, g1, ds[0].more) && Sym(ts, h.pos, ';')
  {
    VarsOkTail(ds);
    VarDeclsTail(ts, g.pos, ds);
    VarDeclSplit(ts, g.pos, ds[0]);
  }

  /// What holds of the rest of a list after its first declaration.
  lemma VarsNext(ts: seq<Token>, g: Gen, ds: seq<VarDecl>, n: nat, g1: Gen, h: Gen)
    requires VarsAt(ts, g, ds) && ds != []
    requires g1 == DeclareSub(At(g, g.pos + 3), ds[0].first, TypeText(ds[0].typ), LocalKind)
    requires h == NamesRan(g1, TypeText(ds[0].typ), ds[0].more)
    ensures VarsAt(ts, Skip(h, 1), ds[1..])
    ensures VarsRan(Skip(h, 1), ds[1..], n + 1 + |ds[0].more|) == VarsRan(g, ds, n)
  {
    VarsOkTail(ds);
    VarDeclsTail(ts, g.pos, ds);
    NamesLength(ds[0].more);
    VarsRanHead(g, ds, n, g1, h);
  }

  /// One pass of the `compVarDec` loop over the first declaration of `ds`.
  lemma VarDecsStep(ts: seq<Token>, g: Gen, ds: seq<VarDecl>, n: nat, g1: Gen, h: Gen)
    requires VarsAt(ts, g, ds) && ds != []
    requires g1 == DeclareSub(At(g, g.pos + 3), ds[0].first, TypeText(ds[0].typ), LocalKind)
    requires h == NamesRan(g1, TypeText(ds[0].typ), ds[0].more)
    ensures Fits(ts, Skip(h, 1)) && VarDecs(ts, g, n) == VarDecs(ts, Skip(h, 1), n + 1 + |ds[0].more|)
  {
    VarsFirst(ts, g, ds, g1, h);
    VarNamesCompiles(ts, g1, TypeText(ds[0].typ), ds[0].more, n + 1);
    VarDecsUnfold(ts, g, n, TypeText(ds[0].typ), ds[0].first, h, n + 1 + |ds[0].more|);
  }

  /// `compVarDec` on the `var` declarations `ds`: each declared name
  /// becomes a local, in order, and the count returned is the number of
  /// names, repetitions included.
  lemma {:induction false} VarDecsCompiles(ts: seq<Token>, g: Gen, ds: seq<VarDecl>, n: nat)
    requires VarsAt(ts, g, ds)
    ensures VarDecs(ts, g, n) == VarsRan(g, ds, n)
    decreases |ds|
  {
    if ds == [] {
      assert !Kw(ts, g.pos, Var);
    } else {
      var g1 := DeclareSub(At(g, g.pos + 3), ds[0].first, TypeText(ds[0].typ), LocalKind);
      var h := NamesRan(g1, TypeText(ds[0].typ), ds[0].more);
      VarsNext(ts, g, ds, n, g1, h);
      VarDecsStep(ts, g, ds, n, g1, h);
      VarDecsCompiles(ts, Skip(h, 1), ds[1..], n + 1 + |ds[0].more|);
    }
  }
}

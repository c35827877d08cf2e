/// What the parser of 10/JackAnalyzer.c prints, read back: every element it
/// opens it closes (on the error paths too), the elements spell exactly the
/// tokens the cursor went over, and the statement loop stops where the
/// grammar says. The one element that can be left open is a subroutine
/// body without its '}'.
module AnalyzerProps {
  import opened CLib
  import opened JackTokens
  import opened AnalyzerLexer
  import opened AnalyzerXml
  import opened Analyzer
  import E = JackEngine

  /// The lexemes of `ts[i..j]`.
  function Lexemes(ts: seq<Token>, i: nat, j: nat): (r: seq<Lexeme>)
    requires i <= j <= |ts|
    ensures |r| == j - i && forall k :: i <= k < j ==> r[k - i] == ts[k].lex
  {
    seq(j - i, k requires 0 <= k < j - i => ts[i + k].lex)
  }

  /// The lines printed on the way from `out` to `r`.
  function New(out: seq<Xml>, r: Xs): seq<Xml>
    requires out <= r.out
  {
    r.out[|out|..]
  }

  /// From cursor `p` and output `out`, the production ended in `r` and
  /// printed the elements of the tokens in between, in order.
  predicate Spells(ts: seq<Token>, p: nat, out: seq<Xml>, r: Xs)
  {
    p <= r.pos <= |ts| && out <= r.out && Leaves(New(out, r)) == Lexemes(ts, p, r.pos)
  }

  /// ... and every tag it printed is closed, innermost first, and none is a
  /// `subroutineBody` tag.
  predicate Prints(ts: seq<Token>, p: nat, out: seq<Xml>, r: Xs)
  {
    Spells(ts, p, out, r) && Balanced(New(out, r)) && Erase(New(out, r)) == New(out, r)
  }

  /// ... and every tag but those of `subroutineBody` is closed.
  predicate PrintsErased(ts: seq<Token>, p: nat, out: seq<Xml>, r: Xs)
  {
    Spells(ts, p, out, r) && Balanced(Erase(New(out, r)))
  }

  /// Nothing printed and nothing consumed.
  predicate Still(x: Xs, r: Xs) { r.pos == x.pos && r.out == x.out }

  // ------------------------------------------------------------ composition

  lemma LexemesJoin(ts: seq<Token>, i: nat, j: nat, k: nat)
    requires i <= j <= k <= |ts|
    ensures Lexemes(ts, i, j) + Lexemes(ts, j, k) == Lexemes(ts, i, k)
  {
  }

  lemma NewJoin(out: seq<Xml>, a: Xs, b: Xs)
    requires out <= a.out <= b.out
    ensures New(out, b) == New(out, a) + New(a.out, b)
  {
  }

  lemma SpellsJoin(ts: seq<Token>, p: nat, out: seq<Xml>, a: Xs, b: Xs)
    requires Spells(ts, p, out, a) && Spells(ts, a.pos, a.out, b)
    ensures Spells(ts, p, out, b)
  {
    NewJoin(out, a, b);
    LeavesAppend(New(out, a), New(a.out, b));
    LexemesJoin(ts, p, a.pos, b.pos);
  }

  lemma PrintsJoin(ts: seq<Token>, p: nat, out: seq<Xml>, a: Xs, b: Xs)
    requires Prints(ts, p, out, a) && Prints(ts, a.pos, a.out, b)
    ensures Prints(ts, p, out, b)
  {
    SpellsJoin(ts, p, out, a, b);
    NewJoin(out, a, b);
    BalancedAppend(New(out, a), New(a.out, b));
    EraseAppend(New(out, a), New(a.out, b));
  }

  lemma ErasedJoin(ts: seq<Token>, p: nat, out: seq<Xml>, a: Xs, b: Xs)
    requires PrintsErased(ts, p, out, a) && PrintsErased(ts, a.pos, a.out, b)
    ensures PrintsErased(ts, p, out, b)
  {
    SpellsJoin(ts, p, out, a, b);
    NewJoin(out, a, b);
    EraseAppend(New(out, a), New(a.out, b));
    BalancedAppend(Erase(New(out, a)), Erase(New(a.out, b)));
  }

  lemma PrintsErasedToo(ts: seq<Token>, p: nat, out: seq<Xml>, r: Xs)
    requires Prints(ts, p, out, r)
    ensures PrintsErased(ts, p, out, r)
  {
  }

  /// A state that printed and consumed nothing.
  lemma PrintsStill(ts: seq<Token>, x: Xs, r: Xs)
    requires x.pos <= |ts| && Still(x, r)
    ensures Prints(ts, x.pos, x.out, r)
  {
    assert New(x.out, r) == [];
  }

  /// What `Check` and `Fail` leave alone.
  lemma PrintsSame(ts: seq<Token>, p: nat, out: seq<Xml>, a: Xs, b: Xs)
    requires Prints(ts, p, out, a) && Still(a, b)
    ensures Prints(ts, p, out, b)
  {
  }

  lemma ErasedSame(ts: seq<Token>, p: nat, out: seq<Xml>, a: Xs, b: Xs)
    requires PrintsErased(ts, p, out, a) && Still(a, b)
    ensures PrintsErased(ts, p, out, b)
  {
  }

  lemma PrintsTake(ts: seq<Token>, x: Xs)
    requires x.pos < |ts|
    ensures Prints(ts, x.pos, x.out, Take(ts, x))
  {
    var r := Take(ts, x);
    assert New(x.out, r) == [Leaf(ts[x.pos].lex)];
    assert Leaves([Leaf(ts[x.pos].lex)]) == [ts[x.pos].lex] by { assert [Leaf(ts[x.pos].lex)][1..] == []; }
    assert Match([Leaf(ts[x.pos].lex)], []) == Some([]) by { assert [Leaf(ts[x.pos].lex)][1..] == []; }
  }

  lemma PrintsExpect(ts: seq<Token>, x: Xs, c: char)
    requires x.pos <= |ts|
    ensures Prints(ts, x.pos, x.out, Expect(ts, x, c))
    ensures Expect(ts, x, c).pos == x.pos ==> Still(x, Expect(ts, x, c))
  {
    if E.Sym(ts, x.pos, c) { PrintsTake(ts, x); } else { PrintsStill(ts, x, Fail(x)); }
  }

  /// The lines of `Take` after a production.
  lemma PrintsThenTake(ts: seq<Token>, p: nat, out: seq<Xml>, a: Xs)
    requires Prints(ts, p, out, a) && a.pos < |ts|
    ensures Prints(ts, p, out, Take(ts, a))
  {
    PrintsTake(ts, a);
    PrintsJoin(ts, p, out, a, Take(ts, a));
  }

  lemma PrintsThenExpect(ts: seq<Token>, p: nat, out: seq<Xml>, a: Xs, c: char)
    requires Prints(ts, p, out, a)
    ensures Prints(ts, p, out, Expect(ts, a, c))
  {
    PrintsExpect(ts, a, c);
    PrintsJoin(ts, p, out, a, Expect(ts, a, c));
  }

  /// A production printed between the two tags of `t`.
  lemma PrintsWrap(ts: seq<Token>, p: nat, out: seq<Xml>, t: Tag, y: Xs)
    requires t != SubroutineBodyTag && Prints(ts, p, out + [Open(t)], y)
    ensures Prints(ts, p, out, Closed(y, t))
    ensures New(out, Closed(y, t)) == [Open(t)] + New(out + [Open(t)], y) + [Close(t)]
  {
    var m := New(out + [Open(t)], y);
    var r := Closed(y, t);
    assert New(out, r) == [Open(t)] + m + [Close(t)];
    BalancedWrap(t, m);
    LeavesAppend([Open(t)] + m, [Close(t)]);
    LeavesAppend([Open(t)], m);
    assert Leaves([Open(t)]) == [] by { assert [Open(t)][1..] == []; }
    assert Leaves([Close(t)]) == [] by { assert [Close(t)][1..] == []; }
    EraseAppend([Open(t)] + m, [Close(t)]);
    EraseAppend([Open(t)], m);
    assert Erase([Open(t)]) == [Open(t)] by { assert [Open(t)][1..] == []; }
    assert Erase([Close(t)]) == [Close(t)] by { assert [Close(t)][1..] == []; }
  }

  /// The same for a production that may leave a `subroutineBody` open.
  lemma ErasedWrap(ts: seq<Token>, p: nat, out: seq<Xml>, t: Tag, y: Xs)
    requires t != SubroutineBodyTag && PrintsErased(ts, p, out + [Open(t)], y)
    ensures PrintsErased(ts, p, out, Closed(y, t))
    ensures New(out, Closed(y, t)) == [Open(t)] + New(out + [Open(t)], y) + [Close(t)]
  {
    var m := New(out + [Open(t)], y);
    var r := Closed(y, t);
    assert New(out, r) == [Open(t)] + m + [Close(t)];
    LeavesAppend([Open(t)] + m, [Close(t)]);
    LeavesAppend([Open(t)], m);
    assert Leaves([Open(t)]) == [] by { assert [Open(t)][1..] == []; }
    assert Leaves([Close(t)]) == [] by { assert [Close(t)][1..] == []; }
    EraseAppend([Open(t)] + m, [Close(t)]);
    EraseAppend([Open(t)], m);
    assert Erase([Open(t)]) == [Open(t)] by { assert [Open(t)][1..] == []; }
    assert Erase([Close(t)]) == [Close(t)] by { assert [Close(t)][1..] == []; }
    BalancedWrap(t, Erase(m));
  }

  /// The tag `compStatements` prints for a statement keyword.
  function TagOf(k: Keyword): Tag
    requires StatementKeyword(k)
  {
    match k
    case Do => DoTag
    case Let => LetTag
    case If => IfTag
    case While => WhileTag
    case Return => ReturnTag
  }

  /// A leaf in front of balanced lines.
  lemma LeafThen(l: Lexeme, m: seq<Xml>)
    requires Balanced(m) && Erase(m) == m
    ensures Balanced([Leaf(l)] + m) && Erase([Leaf(l)] + m) == [Leaf(l)] + m
    ensures Leaves([Leaf(l)] + m) == [l] + Leaves(m)
  {
    assert ([Leaf(l)] + m)[0] == Leaf(l) && ([Leaf(l)] + m)[1..] == m;
  }

  /// A statement whose keyword is at `p`: it prints its tag `t` and the
  /// keyword, the production `inner` from `p + 1`, and the closing tag.
  lemma PrintsStatement(ts: seq<Token>, p: nat, out: seq<Xml>, t: Tag, k: Keyword, inner: Xs)
    requires p < |ts| && t != SubroutineBodyTag && ts[p].lex == KeywordLex(k)
    requires Prints(ts, p + 1, out + [Open(t), Leaf(KeywordLex(k))], inner)
    ensures Prints(ts, p, out, Closed(inner, t))
  {
    var m := New(out + [Open(t), Leaf(KeywordLex(k))], inner);
    LeafThen(KeywordLex(k), m);
    assert New(out + [Open(t)], inner) == [Leaf(KeywordLex(k))] + m;
    assert Lexemes(ts, p, inner.pos) == [KeywordLex(k)] + Lexemes(ts, p + 1, inner.pos);
    PrintsWrap(ts, p, out, t, inner);
  }

  /// The lines of such a statement.
  lemma StatementLines(out: seq<Xml>, t: Tag, k: Keyword, inner: Xs)
    requires out + [Open(t), Leaf(KeywordLex(k))] <= inner.out
    ensures New(out, Closed(inner, t)) == [Open(t), Leaf(KeywordLex(k))] + New(out + [Open(t), Leaf(KeywordLex(k))], inner) + [Close(t)]
  {
  }

  // ------------------------------------------------------------ expressions

  lemma {:induction false} ExpressionListPrints(ts: seq<Token>, x: Xs)
    requires x.pos <= |ts|
    ensures Prints(ts, x.pos, x.out, ExpressionList(ts, x))
    decreases |ts| - x.pos, 5
  {
    var y := Opened(x, ExpressionListTag);
    var e := Expression(ts, y);
    ExpressionPrints(ts, y);
    var l := MoreExpressions(ts, e);
    MoreExpressionsPrints(ts, e);
    PrintsJoin(ts, x.pos, y.out, e, l);
    var c := Check(l, E.ExpressionListProd);
    PrintsSame(ts, x.pos, y.out, l, c);
    PrintsWrap(ts, x.pos, x.out, ExpressionListTag, c);
  }

  lemma {:induction false} MoreExpressionsPrints(ts: seq<Token>, x: Xs)
    requires x.pos <= |ts|
    ensures Prints(ts, x.pos, x.out, MoreExpressions(ts, x))
    decreases |ts| - x.pos, 0
  {
    if E.Sym(ts, x.pos, ',') {
      var a := Take(ts, x);
      PrintsTake(ts, x);
      var e := Expression(ts, a);
      ExpressionPrints(ts, a);
      PrintsJoin(ts, x.pos, x.out, a, e);
      MoreExpressionsPrints(ts, e);
      PrintsJoin(ts, x.pos, x.out, e, MoreExpressions(ts, e));
    } else {
      PrintsStill(ts, x, x);
    }
  }

  /// A term prints the `<term>` element of what it reads; a token that
  /// starts no term prints nothing and is not consumed.
  lemma {:induction false} TermPrints(ts: seq<Token>, x: Xs)
    requires x.pos <= |ts|
    ensures Prints(ts, x.pos, x.out, Term(ts, x))
    ensures E.StartsTerm(ts, x.pos) ==> Term(ts, x).pos > x.pos
    ensures !E.StartsTerm(ts, x.pos) ==> Still(x, Term(ts, x))
    decreases |ts| - x.pos, 3
  {
    TermBodyPrints(ts, x);
  }

  lemma {:induction false} TermBodyPrints(ts: seq<Token>, x: Xs)
    requires x.pos <= |ts|
    ensures Prints(ts, x.pos, x.out, TermBody(ts, x))
    ensures E.StartsTerm(ts, x.pos) ==> TermBody(ts, x).pos > x.pos
    ensures !E.StartsTerm(ts, x.pos) ==> Still(x, TermBody(ts, x))
    decreases |ts| - x.pos, 2
  {
    var p := x.pos;
    if p == |ts| {
      PrintsStill(ts, x, x);
    } else {
      match ts[p].lex
      case IdentifierLex(_) =>
        var y := Opened(x, TermTag);
        NamedTermPrints(ts, y);
        PrintsWrap(ts, p, x.out, TermTag, NamedTerm(ts, y));
      case SymbolLex(c) =>
        if c == '(' || c == '-' || c == '~' {
          SymbolTermPrints(ts, x);
        } else {
          PrintsStill(ts, x, x);
        }
      case KeywordLex(k) =>
        if KeywordConstant(k) {
          LeafTermPrints(ts, x);
        } else {
          PrintsStill(ts, x, x);
        }
      case _ =>
        LeafTermPrints(ts, x);
    }
  }

  lemma LeafTermPrints(ts: seq<Token>, x: Xs)
    requires x.pos < |ts|
    ensures Prints(ts, x.pos, x.out, LeafTerm(ts, x))
  {
    var y := Opened(x, TermTag);
    PrintsTake(ts, y);
    PrintsWrap(ts, x.pos, x.out, TermTag, Take(ts, y));
  }

  lemma {:induction false} SymbolTermPrints(ts: seq<Token>, x: Xs)
    requires x.pos < |ts|
    ensures Prints(ts, x.pos, x.out, SymbolTerm(ts, x)) && SymbolTerm(ts, x).pos > x.pos
    decreases |ts| - x.pos, 1
  {
    var o := Opened(x, TermTag);
    var y := Take(ts, o);
    PrintsTake(ts, o);
    if E.Sym(ts, x.pos, '(') {
      ParenthesisedPrints(ts, y);
      PrintsJoin(ts, x.pos, o.out, y, Parenthesised(ts, y));
      PrintsWrap(ts, x.pos, x.out, TermTag, Parenthesised(ts, y));
    } else {
      TermPrints(ts, y);
      PrintsJoin(ts, x.pos, o.out, y, Term(ts, y));
      PrintsWrap(ts, x.pos, x.out, TermTag, Term(ts, y));
    }
  }

  lemma {:induction false} NamedTermPrints(ts: seq<Token>, x: Xs)
    requires E.Ident(ts, x.pos)
    ensures Prints(ts, x.pos, x.out, NamedTerm(ts, x)) && NamedTerm(ts, x).pos > x.pos
    decreases |ts| - x.pos, 1
  {
    var p := x.pos;
    if E.Sym(ts, p + 1, '[') {
      ElementPrints(ts, x);
    } else if E.Sym(ts, p + 1, '(') || E.Sym(ts, p + 1, '.') {
      SubroutineCallPrints(ts, x);
    } else {
      PrintsTake(ts, x);
    }
  }

  /// `name '[' expression ']'` of a term.
  lemma {:induction false} ElementPrints(ts: seq<Token>, x: Xs)
    requires E.Ident(ts, x.pos) && E.Sym(ts, x.pos + 1, '[')
    ensures Prints(ts, x.pos, x.out, NamedTerm(ts, x))
    decreases |ts| - x.pos, 0
  {
    var p := x.pos;
    var b := Take(ts, x);
    var a := Take(ts, b);
    PrintsTake(ts, x);
    PrintsThenTake(ts, p, x.out, b);
    var e := Expression(ts, a);
    ExpressionPrints(ts, a);
    PrintsJoin(ts, p, x.out, a, e);
    PrintsThenExpect(ts, p, x.out, e, ']');
    assert NamedTerm(ts, x) == Expect(ts, e, ']');
  }

  lemma {:induction false} ParenthesisedPrints(ts: seq<Token>, x: Xs)
    requires 0 < x.pos <= |ts|
    ensures Prints(ts, x.pos, x.out, Parenthesised(ts, x))
    decreases |ts| - x.pos + 1, 0
  {
    ExpressionPrints(ts, x);
    PrintsThenExpect(ts, x.pos, x.out, Expression(ts, x), ')');
  }

  /// An expression prints the `<expression>` element of what it reads, and
  /// reads something exactly when a term starts at the cursor.
  lemma {:induction false} ExpressionPrints(ts: seq<Token>, x: Xs)
    requires x.pos <= |ts|
    ensures Prints(ts, x.pos, x.out, Expression(ts, x))
    ensures Expression(ts, x).pos > x.pos <==> E.StartsTerm(ts, x.pos)
    ensures !E.StartsTerm(ts, x.pos) ==> Still(x, Expression(ts, x))
    decreases |ts| - x.pos, 4
  {
    if E.StartsTerm(ts, x.pos) {
      var y := Opened(x, ExpressionTag);
      var t := Term(ts, y);
      TermPrints(ts, y);
      var o := Operations(ts, t);
      OperationsPrints(ts, t);
      PrintsJoin(ts, x.pos, y.out, t, o);
      PrintsWrap(ts, x.pos, x.out, ExpressionTag, o);
    } else {
      PrintsStill(ts, x, x);
    }
  }

  /// An operator and the '=' right after it are one element that spells
  /// both tokens.
  lemma PrintsOpEq(ts: seq<Token>, x: Xs)
    requires OpAt(ts, x.pos) && E.Sym(ts, x.pos + 1, '=')
    ensures Prints(ts, x.pos, x.out, Put(x, [OpEq(ts[x.pos].lex.symbol)]).(pos := x.pos + 2))
  {
    var c := ts[x.pos].lex.symbol;
    var r := Put(x, [OpEq(c)]).(pos := x.pos + 2);
    assert New(x.out, r) == [OpEq(c)];
    assert Leaves([OpEq(c)]) == [SymbolLex(c), SymbolLex('=')] by { assert [OpEq(c)][1..] == []; }
    assert Match([OpEq(c)], []) == Some([]) by { assert [OpEq(c)][1..] == []; }
    assert Lexemes(ts, x.pos, x.pos + 2) == [SymbolLex(c), SymbolLex('=')];
  }

  lemma {:induction false} OperationsPrints(ts: seq<Token>, x: Xs)
    requires x.pos <= |ts|
    ensures Prints(ts, x.pos, x.out, Operations(ts, x))
    decreases |ts| - x.pos, 1
  {
    if OpAt(ts, x.pos) {
      var y := if E.Sym(ts, x.pos + 1, '=') then Put(x, [OpEq(ts[x.pos].lex.symbol)]).(pos := x.pos + 2) else Take(ts, x);
      if E.Sym(ts, x.pos + 1, '=') { PrintsOpEq(ts, x); } else { PrintsTake(ts, x); }
      var t := Term(ts, y);
      TermPrints(ts, y);
      PrintsJoin(ts, x.pos, x.out, y, t);
      OperationsPrints(ts, t);
      PrintsJoin(ts, x.pos, x.out, t, Operations(ts, t));
    } else {
      PrintsStill(ts, x, x);
    }
  }

  /// A call prints what it reads; without a name at the cursor it prints
  /// and consumes nothing.
  lemma {:induction false} SubroutineCallPrints(ts: seq<Token>, x: Xs)
    requires x.pos <= |ts|
    ensures Prints(ts, x.pos, x.out, SubroutineCall(ts, x))
    ensures SubroutineCall(ts, x).pos > x.pos <==> E.Ident(ts, x.pos)
    ensures !E.Ident(ts, x.pos) ==> Still(x, SubroutineCall(ts, x))
    decreases |ts| - x.pos, 0
  {
    if E.Ident(ts, x.pos) {
      var a := Take(ts, x);
      PrintsTake(ts, x);
      var b := Callee(ts, a);
      CalleePrints(ts, a);
      PrintsJoin(ts, x.pos, x.out, a, b);
      ArgumentsPrints(ts, b);
      PrintsJoin(ts, x.pos, x.out, b, Arguments(ts, b));
    } else {
      PrintsStill(ts, x, Fail(x));
    }
  }

  lemma CalleePrints(ts: seq<Token>, x: Xs)
    requires x.pos <= |ts|
    ensures Prints(ts, x.pos, x.out, Callee(ts, x))
  {
    if E.Sym(ts, x.pos, '.') {
      var d := Take(ts, x);
      PrintsTake(ts, x);
      if E.Ident(ts, d.pos) { PrintsThenTake(ts, x.pos, x.out, d); }
    } else {
      PrintsStill(ts, x, x);
    }
  }

  lemma {:induction false} ArgumentsPrints(ts: seq<Token>, x: Xs)
    requires x.pos <= |ts|
    ensures Prints(ts, x.pos, x.out, Arguments(ts, x))
    decreases |ts| - x.pos, 0
  {
    if E.Sym(ts, x.pos, '(') {
      var a := Take(ts, x);
      PrintsTake(ts, x);
      ExpressionListPrints(ts, a);
      PrintsJoin(ts, x.pos, x.out, a, ExpressionList(ts, a));
      PrintsThenExpect(ts, x.pos, x.out, ExpressionList(ts, a), ')');
    } else {
      PrintsStill(ts, x, Fail(x));
    }
  }

  // ------------------------------------------------------------- statements

  /// The element of a statement: its tag, its keyword, ..., its closing tag.
  predicate StatementElement(lines: seq<Xml>, k: Keyword)
    requires StatementKeyword(k)
  {
    |lines| >= 3 && lines[0] == Open(TagOf(k)) && lines[1] == Leaf(KeywordLex(k)) && lines[|lines| - 1] == Close(TagOf(k))
  }

  /// The element of a statement that read nothing past its keyword.
  predicate EmptyStatement(lines: seq<Xml>, k: Keyword)
    requires StatementKeyword(k)
  {
    lines == [Open(TagOf(k)), Leaf(KeywordLex(k)), Close(TagOf(k))]
  }

  /// What a statement whose keyword `k` is at `x.pos - 1` prints when it
  /// ends in `r`.
  predicate StatementPrints(ts: seq<Token>, x: Xs, k: Keyword, r: Xs)
    requires 0 < x.pos && StatementKeyword(k)
  {
    Prints(ts, x.pos - 1, x.out, r) && StatementElement(New(x.out, r), k)
    && (r.pos == x.pos ==> EmptyStatement(New(x.out, r), k))
  }

  /// Closing a statement: from what its inner production printed after the
  /// keyword to the whole statement.
  lemma CloseStatement(ts: seq<Token>, x: Xs, k: Keyword, inner: Xs)
    requires 0 < x.pos <= |ts| && StatementKeyword(k) && ts[x.pos - 1].lex == KeywordLex(k)
    requires Prints(ts, x.pos, x.out + [Open(TagOf(k)), Leaf(KeywordLex(k))], inner)
    requires inner.pos == x.pos ==> inner.out == x.out + [Open(TagOf(k)), Leaf(KeywordLex(k))]
    ensures StatementPrints(ts, x, k, Closed(inner, TagOf(k)))
  {
    PrintsStatement(ts, x.pos - 1, x.out, TagOf(k), k, inner);
    StatementLines(x.out, TagOf(k), k, inner);
  }

  lemma {:induction false} ReturnPrints(ts: seq<Token>, x: Xs)
    requires 0 < x.pos <= |ts| && ts[x.pos - 1].lex == KeywordLex(Return)
    ensures StatementPrints(ts, x, Return, ReturnStatement(ts, x))
    decreases |ts| - x.pos, 5
  {
    var y := Put(x, [Open(ReturnTag), Leaf(KeywordLex(Return))]);
    var e := Expression(ts, y);
    ExpressionPrints(ts, y);
    var c := Expect(ts, e, ';');
    PrintsExpect(ts, e, ';');
    PrintsJoin(ts, x.pos, y.out, e, c);
    var ch := Check(c, E.ReturnProd);
    PrintsSame(ts, x.pos, y.out, c, ch);
    CloseStatement(ts, x, Return, ch);
  }

  lemma {:induction false} DoPrints(ts: seq<Token>, x: Xs)
    requires 0 < x.pos <= |ts| && ts[x.pos - 1].lex == KeywordLex(Do)
    ensures StatementPrints(ts, x, Do, DoStatement(ts, x))
    decreases |ts| - x.pos, 5
  {
    var y := Put(x, [Open(DoTag), Leaf(KeywordLex(Do))]);
    var e := SubroutineCall(ts, y);
    SubroutineCallPrints(ts, y);
    var c := Expect(ts, e, ';');
    PrintsExpect(ts, e, ';');
    PrintsJoin(ts, x.pos, y.out, e, c);
    var ch := Check(c, E.DoProd);
    PrintsSame(ts, x.pos, y.out, c, ch);
    CloseStatement(ts, x, Do, ch);
  }

  lemma {:induction false} LetPrints(ts: seq<Token>, x: Xs)
    requires 0 < x.pos <= |ts| && ts[x.pos - 1].lex == KeywordLex(Let)
    ensures StatementPrints(ts, x, Let, LetStatement(ts, x))
    decreases |ts| - x.pos, 5
  {
    var y := Put(x, [Open(LetTag), Leaf(KeywordLex(Let))]);
    var c := LetTarget(ts, y);
    LetTargetPrints(ts, y);
    var ch := Check(c, E.LetProd);
    PrintsSame(ts, x.pos, y.out, c, ch);
    CloseStatement(ts, x, Let, ch);
  }

  lemma {:induction false} LetTargetPrints(ts: seq<Token>, x: Xs)
    requires x.pos <= |ts|
    ensures Prints(ts, x.pos, x.out, LetTarget(ts, x))
    ensures LetTarget(ts, x).pos == x.pos ==> Still(x, LetTarget(ts, x))
    decreases |ts| - x.pos, 4
  {
    if E.Ident(ts, x.pos) {
      var a := Take(ts, x);
      PrintsTake(ts, x);
      var b := LetIndex(ts, a);
      LetIndexPrints(ts, a);
      PrintsJoin(ts, x.pos, x.out, a, b);
      LetValuePrints(ts, b);
      PrintsJoin(ts, x.pos, x.out, b, LetValue(ts, b));
    } else {
      PrintsStill(ts, x, Fail(x));
    }
  }

  lemma {:induction false} LetIndexPrints(ts: seq<Token>, x: Xs)
    requires x.pos <= |ts|
    ensures Prints(ts, x.pos, x.out, LetIndex(ts, x))
    decreases |ts| - x.pos, 0
  {
    if E.Sym(ts, x.pos, '[') {
      var a := Take(ts, x);
      PrintsTake(ts, x);
      ExpressionPrints(ts, a);
      PrintsJoin(ts, x.pos, x.out, a, Expression(ts, a));
      PrintsThenExpect(ts, x.pos, x.out, Expression(ts, a), ']');
    } else {
      PrintsStill(ts, x, x);
    }
  }

  lemma {:induction false} LetValuePrints(ts: seq<Token>, x: Xs)
    requires x.pos <= |ts|
    ensures Prints(ts, x.pos, x.out, LetValue(ts, x))
    decreases |ts| - x.pos, 0
  {
    if E.Sym(ts, x.pos, '=') {
      var a := Take(ts, x);
      PrintsTake(ts, x);
      ExpressionPrints(ts, a);
      PrintsJoin(ts, x.pos, x.out, a, Expression(ts, a));
      PrintsThenExpect(ts, x.pos, x.out, Expression(ts, a), ';');
    } else {
      PrintsStill(ts, x, Fail(x));
    }
  }

  lemma {:induction false} WhilePrints(ts: seq<Token>, x: Xs)
    requires 0 < x.pos <= |ts| && ts[x.pos - 1].lex == KeywordLex(While)
    ensures StatementPrints(ts, x, While, WhileStatement(ts, x))
    decreases |ts| - x.pos, 5
  {
    var y := Put(x, [Open(WhileTag), Leaf(KeywordLex(While))]);
    var c := WhileBody(ts, y);
    WhileBodyPrints(ts, y);
    var ch := Check(c, E.WhileProd);
    PrintsSame(ts, x.pos, y.out, c, ch);
    CloseStatement(ts, x, While, ch);
  }

  /// The condition of a `while` or an `if`, and what follows it.
  lemma {:induction false} GuardPrints(ts: seq<Token>, x: Xs, e: Xs, r: Xs)
    requires E.Sym(ts, x.pos, '(') && e == Expression(ts, Take(ts, x))
    requires E.Sym(ts, e.pos, ')') ==> Prints(ts, e.pos + 1, e.out + [Leaf(SymbolLex(')'))], r)
    ensures Prints(ts, x.pos, x.out, if E.Sym(ts, e.pos, ')') then r else Fail(e))
    decreases |ts| - x.pos, 0
  {
    var a := Take(ts, x);
    PrintsTake(ts, x);
    ExpressionPrints(ts, a);
    PrintsJoin(ts, x.pos, x.out, a, e);
    if E.Sym(ts, e.pos, ')') {
      PrintsThenTake(ts, x.pos, x.out, e);
      PrintsJoin(ts, x.pos, x.out, Take(ts, e), r);
    }
  }

  lemma {:induction false} WhileBodyPrints(ts: seq<Token>, x: Xs)
    requires x.pos <= |ts|
    ensures Prints(ts, x.pos, x.out, WhileBody(ts, x))
    ensures WhileBody(ts, x).pos == x.pos ==> Still(x, WhileBody(ts, x))
    decreases |ts| - x.pos, 4
  {
    if E.Sym(ts, x.pos, '(') {
      var e := Expression(ts, Take(ts, x));
      if E.Sym(ts, e.pos, ')') {
        BlockPrints(ts, Take(ts, e));
      }
      GuardPrints(ts, x, e, if E.Sym(ts, e.pos, ')') then Block(ts, Take(ts, e)) else e);
    } else {
      PrintsStill(ts, x, Fail(x));
    }
  }

  lemma {:induction false} IfPrints(ts: seq<Token>, x: Xs)
    requires 0 < x.pos <= |ts| && ts[x.pos - 1].lex == KeywordLex(If)
    ensures StatementPrints(ts, x, If, IfStatement(ts, x))
    decreases |ts| - x.pos, 5
  {
    var y := Put(x, [Open(IfTag), Leaf(KeywordLex(If))]);
    var c := IfBody(ts, y);
    IfBodyPrints(ts, y);
    var ch := Check(c, E.IfProd);
    PrintsSame(ts, x.pos, y.out, c, ch);
    CloseStatement(ts, x, If, ch);
  }

  lemma {:induction false} IfBodyPrints(ts: seq<Token>, x: Xs)
    requires x.pos <= |ts|
    ensures Prints(ts, x.pos, x.out, IfBody(ts, x))
    ensures IfBody(ts, x).pos == x.pos ==> Still(x, IfBody(ts, x))
    decreases |ts| - x.pos, 4
  {
    if E.Sym(ts, x.pos, '(') {
      var e := Expression(ts, Take(ts, x));
      if E.Sym(ts, e.pos, ')') {
        BranchesPrints(ts, Take(ts, e));
      }
      GuardPrints(ts, x, e, if E.Sym(ts, e.pos, ')') then Branches(ts, Take(ts, e)) else e);
    } else {
      PrintsStill(ts, x, Fail(x));
    }
  }

  lemma {:induction false} BranchesPrints(ts: seq<Token>, x: Xs)
    requires x.pos <= |ts|
    ensures Prints(ts, x.pos, x.out, Branches(ts, x))
    decreases |ts| - x.pos, 0
  {
    if E.Sym(ts, x.pos, '{') {
      var a := Take(ts, x);
      PrintsTake(ts, x);
      var st := Statements(ts, a);
      StatementsPrints(ts, a);
      PrintsJoin(ts, x.pos, x.out, a, st);
      if E.Sym(ts, st.pos, '}') {
        PrintsThenTake(ts, x.pos, x.out, st);
        ElsePartPrints(ts, Take(ts, st));
        PrintsJoin(ts, x.pos, x.out, Take(ts, st), ElsePart(ts, Take(ts, st)));
      }
    } else {
      PrintsStill(ts, x, Fail(x));
    }
  }

  lemma {:induction false} ElsePartPrints(ts: seq<Token>, x: Xs)
    requires x.pos <= |ts|
    ensures Prints(ts, x.pos, x.out, ElsePart(ts, x))
    decreases |ts| - x.pos, 0
  {
    if E.Kw(ts, x.pos, Else) {
      PrintsTake(ts, x);
      BlockPrints(ts, Take(ts, x));
      PrintsJoin(ts, x.pos, x.out, Take(ts, x), Block(ts, Take(ts, x)));
    } else {
      PrintsStill(ts, x, x);
    }
  }

  lemma {:induction false} BlockPrints(ts: seq<Token>, x: Xs)
    requires x.pos <= |ts|
    ensures Prints(ts, x.pos, x.out, Block(ts, x))
    decreases |ts| - x.pos, 0
  {
    if E.Sym(ts, x.pos, '{') {
      var a := Take(ts, x);
      PrintsTake(ts, x);
      StatementsPrints(ts, a);
      PrintsJoin(ts, x.pos, x.out, a, Statements(ts, a));
      PrintsThenExpect(ts, x.pos, x.out, Statements(ts, a), '}');
    } else {
      PrintsStill(ts, x, Fail(x));
    }
  }

  /// Each statement prints its own element: tag, keyword, what it read,
  /// closing tag, on every path; one that reads nothing past its keyword
  /// prints just the tags and the keyword.
  lemma {:induction false} StatementPrintsAll(ts: seq<Token>, x: Xs, k: Keyword)
    requires 0 < x.pos <= |ts| && StatementKeyword(k) && ts[x.pos - 1].lex == KeywordLex(k)
    ensures StatementPrints(ts, x, k, Statement(ts, x, k))
    decreases |ts| - x.pos, 6
  {
    match k
    case Do => DoPrints(ts, x);
    case Let => LetPrints(ts, x);
    case If => IfPrints(ts, x);
    case While => WhilePrints(ts, x);
    case Return => ReturnPrints(ts, x);
  }

  /// One round of the loop of `compStatements`.
  lemma StatementStep(ts: seq<Token>, x: Xs)
    requires x.pos <= |ts| && StatementAt(ts, x.pos)
    ensures Prints(ts, x.pos, x.out, Statement(ts, x.(pos := x.pos + 1), ts[x.pos].lex.keyword))
    decreases |ts| - x.pos - 1, 7
  {
    StatementPrintsAll(ts, x.(pos := x.pos + 1), ts[x.pos].lex.keyword);
  }

  /// The loop of `compStatements` prints the statement elements it reads.
  lemma {:induction false} StatementListPrints(ts: seq<Token>, x: Xs)
    requires x.pos <= |ts|
    ensures Prints(ts, x.pos, x.out, StatementList(ts, x))
    decreases |ts| - x.pos, 0
  {
    if StatementAt(ts, x.pos) {
      var n := Statement(ts, x.(pos := x.pos + 1), ts[x.pos].lex.keyword);
      StatementStep(ts, x);
      if n.pos != x.pos + 1 {
        StatementListPrints(ts, n);
        PrintsJoin(ts, x.pos, x.out, n, StatementList(ts, n));
      }
    } else {
      PrintsStill(ts, x, x);
    }
  }

  /// Where the loop of `compStatements` started at `p` may stop in `r`:
  /// at a token that starts no statement, or right after a statement
  /// that read nothing past its keyword.
  ghost predicate ListStopped(ts: seq<Token>, p: nat, r: Xs)
  {
    StatementAt(ts, r.pos) ==>
      p < r.pos && StatementAt(ts, r.pos - 1) && |r.out| >= 3
      && EmptyStatement(r.out[|r.out| - 3..], ts[r.pos - 1].lex.keyword)
  }

  /// The loop of `compStatements` stops either at a token that starts no
  /// statement or right after a statement that read nothing past its
  /// keyword.
  lemma {:induction false} StatementListStops(ts: seq<Token>, x: Xs)
    requires x.pos <= |ts|
    ensures ListStopped(ts, x.pos, StatementList(ts, x))
    decreases |ts| - x.pos, 0
  {
    if StatementAt(ts, x.pos) {
      var k := ts[x.pos].lex.keyword;
      var z := x.(pos := x.pos + 1);
      var n := Statement(ts, z, k);
      if n.pos != x.pos + 1 {
        assert StatementList(ts, x) == StatementList(ts, n);
        StatementListStops(ts, n);
      } else {
        assert StatementList(ts, x) == n;
        StatementStopped(ts, z, k);
      }
    }
  }

  /// A statement that reads nothing past its keyword prints exactly its
  /// empty element.
  lemma StatementStopped(ts: seq<Token>, z: Xs, k: Keyword)
    requires 0 < z.pos <= |ts| && StatementKeyword(k) && ts[z.pos - 1].lex == KeywordLex(k)
    requires Statement(ts, z, k).pos == z.pos
    ensures ListStopped(ts, z.pos - 1, Statement(ts, z, k))
  {
    var n := Statement(ts, z, k);
    StatementPrintsAll(ts, z, k);
    assert n.out[|n.out| - 3..] == New(z.out, n);
  }

  /// `compStatements` prints one `<statements>` element.
  lemma {:induction false} StatementsPrints(ts: seq<Token>, x: Xs)
    requires x.pos <= |ts|
    ensures Prints(ts, x.pos, x.out, Statements(ts, x))
    decreases |ts| - x.pos, 4
  {
    var y := Opened(x, StatementsTag);
    StatementListPrints(ts, y);
    PrintsWrap(ts, x.pos, x.out, StatementsTag, StatementList(ts, y));
  }

  // ----------------------------------------------------------- declarations

  lemma {:induction false} MoreNamesPrints(ts: seq<Token>, x: Xs)
    requires x.pos <= |ts|
    ensures Prints(ts, x.pos, x.out, MoreNames(ts, x))
    decreases |ts| - x.pos
  {
    if E.Sym(ts, x.pos, ',') {
      var a := Take(ts, x);
      PrintsTake(ts, x);
      if E.Ident(ts, a.pos) {
        PrintsThenTake(ts, x.pos, x.out, a);
        MoreNamesPrints(ts, Take(ts, a));
        PrintsJoin(ts, x.pos, x.out, Take(ts, a), MoreNames(ts, Take(ts, a)));
      }
    } else {
      PrintsStill(ts, x, x);
    }
  }

  lemma DeclaratorsPrints(ts: seq<Token>, x: Xs)
    requires x.pos <= |ts|
    ensures Prints(ts, x.pos, x.out, Declarators(ts, x))
  {
    if E.IsType(ts, x.pos) {
      var a := Take(ts, x);
      PrintsTake(ts, x);
      if E.Ident(ts, a.pos) {
        PrintsThenTake(ts, x.pos, x.out, a);
        MoreNamesPrints(ts, Take(ts, a));
        PrintsJoin(ts, x.pos, x.out, Take(ts, a), MoreNames(ts, Take(ts, a)));
        PrintsThenExpect(ts, x.pos, x.out, MoreNames(ts, Take(ts, a)), ';');
      }
    } else {
      PrintsStill(ts, x, Fail(x));
    }
  }

  /// A declaration between the tags of `t`, from its keyword.
  lemma DeclarationPrints(ts: seq<Token>, x: Xs, t: Tag)
    requires x.pos < |ts| && t != SubroutineBodyTag
    ensures Prints(ts, x.pos, x.out, Closed(Declarators(ts, Take(ts, Opened(x, t))), t))
  {
    var y := Opened(x, t);
    PrintsTake(ts, y);
    DeclaratorsPrints(ts, Take(ts, y));
    PrintsJoin(ts, x.pos, y.out, Take(ts, y), Declarators(ts, Take(ts, y)));
    PrintsWrap(ts, x.pos, x.out, t, Declarators(ts, Take(ts, y)));
  }

  lemma VarDecPrints(ts: seq<Token>, x: Xs)
    requires x.pos <= |ts|
    ensures Prints(ts, x.pos, x.out, VarDec(ts, x))
  {
    if E.Kw(ts, x.pos, Var) {
      DeclarationPrints(ts, x, VarDecTag);
    } else {
      PrintsStill(ts, x, x);
    }
  }

  lemma ClassVarDecPrints(ts: seq<Token>, x: Xs)
    requires x.pos <= |ts|
    ensures Prints(ts, x.pos, x.out, ClassVarDec(ts, x))
  {
    if E.Kw(ts, x.pos, Static) || E.Kw(ts, x.pos, Field) {
      DeclarationPrints(ts, x, ClassVarDecTag);
    } else {
      PrintsStill(ts, x, x);
    }
  }

  lemma {:induction false} VarDecsPrints(ts: seq<Token>, x: Xs)
    requires x.pos <= |ts|
    ensures Prints(ts, x.pos, x.out, VarDecs(ts, x))
    decreases |ts| - x.pos
  {
    var n := VarDec(ts, x);
    VarDecPrints(ts, x);
    if n.pos != x.pos {
      VarDecsPrints(ts, n);
      PrintsJoin(ts, x.pos, x.out, n, VarDecs(ts, n));
    }
  }

  lemma {:induction false} ClassVarDecsPrints(ts: seq<Token>, x: Xs)
    requires x.pos <= |ts|
    ensures Prints(ts, x.pos, x.out, ClassVarDecs(ts, x))
    decreases |ts| - x.pos
  {
    var n := ClassVarDec(ts, x);
    ClassVarDecPrints(ts, x);
    if n.pos != x.pos {
      ClassVarDecsPrints(ts, n);
      PrintsJoin(ts, x.pos, x.out, n, ClassVarDecs(ts, n));
    }
  }

  lemma {:induction false} MoreParametersPrints(ts: seq<Token>, x: Xs)
    requires x.pos <= |ts|
    ensures Prints(ts, x.pos, x.out, MoreParameters(ts, x))
    decreases |ts| - x.pos
  {
    if E.Sym(ts, x.pos, ',') {
      var a := Take(ts, x);
      PrintsTake(ts, x);
      if E.IsType(ts, a.pos) {
        var b := Take(ts, a);
        PrintsThenTake(ts, x.pos, x.out, a);
        if E.Ident(ts, b.pos) {
          PrintsThenTake(ts, x.pos, x.out, b);
          MoreParametersPrints(ts, Take(ts, b));
          PrintsJoin(ts, x.pos, x.out, Take(ts, b), MoreParameters(ts, Take(ts, b)));
        }
      }
    } else {
      PrintsStill(ts, x, x);
    }
  }

  lemma ParameterListPrints(ts: seq<Token>, x: Xs)
    requires x.pos <= |ts|
    ensures Prints(ts, x.pos, x.out, ParameterList(ts, x))
  {
    var y := Opened(x, ParameterListTag);
    var z :=
      if E.IsType(ts, y.pos) then
        var a := Take(ts, y);
        if E.Ident(ts, a.pos) then MoreParameters(ts, Take(ts, a)) else Fail(a)
      else y;
    if E.IsType(ts, y.pos) {
      var a := Take(ts, y);
      PrintsTake(ts, y);
      if E.Ident(ts, a.pos) {
        PrintsThenTake(ts, x.pos, y.out, a);
        MoreParametersPrints(ts, Take(ts, a));
        PrintsJoin(ts, x.pos, y.out, Take(ts, a), z);
      }
    } else {
      PrintsStill(ts, y, y);
    }
    PrintsWrap(ts, x.pos, x.out, ParameterListTag, z);
  }

  // -------------------------------------------------------- subroutine bodies

  /// A `subroutineBody` opened and never closed.
  predicate BodyUnclosed(lines: seq<Xml>)
  {
    Open(SubroutineBodyTag) in lines && Close(SubroutineBodyTag) !in lines
  }

  /// Lines whose only possible defect is one subroutine body left open:
  /// then exactly that one tag is open at their end; otherwise every tag
  /// is closed.
  predicate BodyLines(lines: seq<Xml>)
  {
    Balanced(Erase(lines))
    && if BodyUnclosed(lines) then Match(lines, []) == Some([SubroutineBodyTag]) else Balanced(lines)
  }

  predicate Body(ts: seq<Token>, p: nat, out: seq<Xml>, r: Xs)
  {
    Spells(ts, p, out, r) && BodyLines(New(out, r))
  }

  /// Lines that `Erase` leaves alone hold no `subroutineBody` tag.
  lemma {:induction false} EraseKeeps(xs: seq<Xml>)
    requires Erase(xs) == xs
    ensures Open(SubroutineBodyTag) !in xs && Close(SubroutineBodyTag) !in xs
    decreases |xs|
  {
    if xs != [] {
      if xs[0] == Open(SubroutineBodyTag) || xs[0] == Close(SubroutineBodyTag) {
        assert false;
      }
      assert [xs[0]] + Erase(xs[1..]) == xs;
      assert Erase(xs[1..]) == xs[1..];
      EraseKeeps(xs[1..]);
      assert xs == [xs[0]] + xs[1..];
    }
  }

  lemma PrintsBody(ts: seq<Token>, p: nat, out: seq<Xml>, r: Xs)
    requires Prints(ts, p, out, r)
    ensures Body(ts, p, out, r)
  {
    EraseKeeps(New(out, r));
  }

  /// Balanced lines without body tags in front of body lines.
  lemma BodyAfter(pre: seq<Xml>, lines: seq<Xml>)
    requires Balanced(pre) && Erase(pre) == pre && BodyLines(lines)
    ensures BodyLines(pre + lines)
    ensures BodyUnclosed(pre + lines) == BodyUnclosed(lines)
  {
    EraseKeeps(pre);
    EraseAppend(pre, lines);
    BalancedAppend(pre, Erase(lines));
    MatchAppend(pre, lines, []);
  }

  lemma BodyJoin(ts: seq<Token>, p: nat, out: seq<Xml>, a: Xs, b: Xs)
    requires Prints(ts, p, out, a) && Body(ts, a.pos, a.out, b)
    ensures Body(ts, p, out, b)
    ensures BodyUnclosed(New(out, b)) == BodyUnclosed(New(a.out, b))
  {
    SpellsJoin(ts, p, out, a, b);
    NewJoin(out, a, b);
    BodyAfter(New(out, a), New(a.out, b));
  }

  /// A body closed by its '}'.
  lemma BodyClosed(ts: seq<Token>, p: nat, out: seq<Xml>, y: Xs)
    requires Prints(ts, p, out + [Open(SubroutineBodyTag)], y)
    ensures Body(ts, p, out, Closed(y, SubroutineBodyTag))
    ensures Balanced(New(out, Closed(y, SubroutineBodyTag)))
    ensures Close(SubroutineBodyTag) in New(out, Closed(y, SubroutineBodyTag))
  {
    var t := SubroutineBodyTag;
    var m := New(out + [Open(t)], y);
    var r := Closed(y, t);
    assert New(out, r) == [Open(t)] + m + [Close(t)];
    BalancedWrap(t, m);
    LoneTags(t);
    LeavesAppend([Open(t)] + m, [Close(t)]);
    LeavesAppend([Open(t)], m);
    EraseAppend([Open(t)] + m, [Close(t)]);
    EraseAppend([Open(t)], m);
    assert Erase(New(out, r)) == m;
    assert New(out, r)[|New(out, r)| - 1] == Close(t);
  }

  /// Wrapping lines in the tags of another element keeps a body open or
  /// closed.
  lemma WrapKeepsUnclosed(t: Tag, m: seq<Xml>)
    requires t != SubroutineBodyTag
    ensures BodyUnclosed([Open(t)] + m + [Close(t)]) == BodyUnclosed(m)
  {
    var w := [Open(t)] + m + [Close(t)];
    assert forall z :: z in w <==> z == Open(t) || z in m || z == Close(t);
  }

  /// A body that ended without its '}'.
  lemma BodyOpen(ts: seq<Token>, p: nat, out: seq<Xml>, y: Xs)
    requires Prints(ts, p, out + [Open(SubroutineBodyTag)], y)
    ensures Body(ts, p, out, y) && BodyUnclosed(New(out, y))
  {
    var t := SubroutineBodyTag;
    var m := New(out + [Open(t)], y);
    assert New(out, y) == [Open(t)] + m;
    OpenLines(t, m);
  }

  /// The lines of an unclosed body: its opening tag, then balanced lines
  /// without body tags.
  lemma OpenLines(t: Tag, m: seq<Xml>)
    requires t == SubroutineBodyTag && Balanced(m) && Erase(m) == m
    ensures BodyLines([Open(t)] + m) && BodyUnclosed([Open(t)] + m)
    ensures Leaves([Open(t)] + m) == Leaves(m)
  {
    LoneTags(t);
    LeavesAppend([Open(t)], m);
    EraseAppend([Open(t)], m);
    EraseKeeps(m);
    OpenThen(t, m, []);
    assert [] + [t] == [t];
    assert ([Open(t)] + m)[0] == Open(t);
    assert forall z :: z in [Open(t)] + m <==> z == Open(t) || z in m;
    BalancedUnder(m, [t]);
  }

  /// `subroutineBody`: the lines of its declarations and statements
  /// between its tags when its '}' is there; without the '}' the closing
  /// tag is missing too, and exactly that one element is left open.
  lemma SubroutineBodyPrints(ts: seq<Token>, x: Xs)
    requires x.pos < |ts|
    ensures var r := SubroutineBody(ts, x);
            Body(ts, x.pos, x.out, r)
            && (Close(SubroutineBodyTag) in New(x.out, r) ==>
                  Balanced(New(x.out, r)) && x.pos < r.pos && ts[r.pos - 1].lex == SymbolLex('}'))
            && (Close(SubroutineBodyTag) !in New(x.out, r) ==>
                  BodyUnclosed(New(x.out, r)) && Match(New(x.out, r), []) == Some([SubroutineBodyTag])
                  && !E.Sym(ts, r.pos, '}'))
  {
    var st := Statements(ts, VarDecs(ts, Take(ts, Opened(x, SubroutineBodyTag))));
    BodyInsidePrints(ts, x);
    BodyEndPrints(ts, x.pos, x.out, st);
  }

  /// The '{', the declarations and the statements of a body, after its
  /// opening tag.
  lemma BodyInsidePrints(ts: seq<Token>, x: Xs)
    requires x.pos < |ts|
    ensures Prints(ts, x.pos, x.out + [Open(SubroutineBodyTag)],
                   Statements(ts, VarDecs(ts, Take(ts, Opened(x, SubroutineBodyTag)))))
  {
    var y := Opened(x, SubroutineBodyTag);
    var a := Take(ts, y);
    PrintsTake(ts, y);
    var v := VarDecs(ts, a);
    VarDecsPrints(ts, a);
    PrintsJoin(ts, x.pos, y.out, a, v);
    var st := Statements(ts, v);
    StatementsPrints(ts, v);
    PrintsJoin(ts, x.pos, y.out, v, st);
  }

  /// The end of a subroutine body whose lines so far are balanced after
  /// its opening tag.
  lemma BodyEndPrints(ts: seq<Token>, p: nat, out: seq<Xml>, st: Xs)
    requires Prints(ts, p, out + [Open(SubroutineBodyTag)], st)
    ensures var r := BodyEnd(ts, st);
            Body(ts, p, out, r)
            && (Close(SubroutineBodyTag) in New(out, r) ==>
                  Balanced(New(out, r)) && p < r.pos && ts[r.pos - 1].lex == SymbolLex('}'))
            && (Close(SubroutineBodyTag) !in New(out, r) ==>
                  BodyUnclosed(New(out, r)) && Match(New(out, r), []) == Some([SubroutineBodyTag])
                  && !E.Sym(ts, r.pos, '}'))
  {
    if E.Sym(ts, st.pos, '}') {
      PrintsThenTake(ts, p, out + [Open(SubroutineBodyTag)], st);
      BodyClosed(ts, p, out, Take(ts, st));
    } else {
      BodyOpen(ts, p, out, st);
    }
  }

  lemma ParametersBody(ts: seq<Token>, x: Xs)
    requires x.pos <= |ts|
    ensures Body(ts, x.pos, x.out, Parameters(ts, x))
  {
    if E.Sym(ts, x.pos, '(') {
      var a := Take(ts, x);
      PrintsTake(ts, x);
      var c := ParameterList(ts, a);
      ParameterListPrints(ts, a);
      PrintsJoin(ts, x.pos, x.out, a, c);
      if E.Sym(ts, c.pos, ')') {
        var d := Take(ts, c);
        PrintsThenTake(ts, x.pos, x.out, c);
        if E.Sym(ts, d.pos, '{') {
          SubroutineBodyPrints(ts, d);
          BodyJoin(ts, x.pos, x.out, d, SubroutineBody(ts, d));
        } else {
          PrintsSame(ts, x.pos, x.out, d, Fail(d));
          PrintsBody(ts, x.pos, x.out, Fail(d));
        }
      } else {
        PrintsSame(ts, x.pos, x.out, c, Fail(c));
        PrintsBody(ts, x.pos, x.out, Fail(c));
      }
    } else {
      PrintsStill(ts, x, Fail(x));
      PrintsBody(ts, x.pos, x.out, Fail(x));
    }
  }

  lemma SignatureBody(ts: seq<Token>, x: Xs)
    requires x.pos <= |ts|
    ensures Body(ts, x.pos, x.out, Signature(ts, x))
  {
    if IsReturnType(ts, x.pos) {
      var a := Take(ts, x);
      PrintsTake(ts, x);
      if E.Ident(ts, a.pos) {
        PrintsThenTake(ts, x.pos, x.out, a);
        ParametersBody(ts, Take(ts, a));
        BodyJoin(ts, x.pos, x.out, Take(ts, a), Parameters(ts, Take(ts, a)));
      } else {
        PrintsSame(ts, x.pos, x.out, a, Fail(a));
        PrintsBody(ts, x.pos, x.out, Fail(a));
      }
    } else {
      PrintsStill(ts, x, Fail(x));
      PrintsBody(ts, x.pos, x.out, Fail(x));
    }
  }

  /// Body lines between the tags of another element are balanced exactly
  /// when no body in them is left open.
  lemma WrapBody(t: Tag, m: seq<Xml>)
    requires t != SubroutineBodyTag && BodyLines(m)
    ensures Balanced([Open(t)] + m + [Close(t)]) <==> !BodyUnclosed([Open(t)] + m + [Close(t)])
  {
    WrapKeepsUnclosed(t, m);
    if BodyUnclosed(m) {
      MatchAppend([Open(t)] + m, [Close(t)], []);
      OpenThen(t, m, []);
      assert [] + [t] == [t] + [] == [t];
      MatchUnder(m, [t], [], [SubroutineBodyTag]);
      assert [t] + [SubroutineBodyTag] == [t, SubroutineBodyTag];
      CloseAlone(t, [t, SubroutineBodyTag]);
    } else {
      BalancedWrap(t, m);
    }
  }

  /// A subroutine between its `subroutineDec` tags: balanced exactly when
  /// its body was closed.
  lemma SubroutineWrap(ts: seq<Token>, p: nat, out: seq<Xml>, y: Xs)
    requires Body(ts, p, out + [Open(SubroutineDecTag)], y)
    ensures var r := Closed(y, SubroutineDecTag);
            PrintsErased(ts, p, out, r) && (Balanced(New(out, r)) <==> !BodyUnclosed(New(out, r)))
  {
    var t := SubroutineDecTag;
    ErasedWrap(ts, p, out, t, y);
    WrapBody(t, New(out + [Open(t)], y));
  }

  /// `compSubroutine`: its element is balanced exactly when the body it
  /// holds was closed by its '}'.
  lemma SubroutinePrints(ts: seq<Token>, x: Xs)
    requires x.pos <= |ts|
    ensures var r := Subroutine(ts, x);
            PrintsErased(ts, x.pos, x.out, r) && (Balanced(New(x.out, r)) <==> !BodyUnclosed(New(x.out, r)))
  {
    if SubroutineKeyword(ts, x.pos) {
      var y := Opened(x, SubroutineDecTag);
      PrintsTake(ts, y);
      SignatureBody(ts, Take(ts, y));
      BodyJoin(ts, x.pos, y.out, Take(ts, y), Signature(ts, Take(ts, y)));
      SubroutineWrap(ts, x.pos, x.out, Signature(ts, Take(ts, y)));
    } else {
      assert New(x.out, Subroutine(ts, x)) == [];
    }
  }

  lemma {:induction false} SubroutinesPrints(ts: seq<Token>, x: Xs)
    requires x.pos <= |ts|
    ensures PrintsErased(ts, x.pos, x.out, Subroutines(ts, x))
    decreases |ts| - x.pos
  {
    var n := Subroutine(ts, x);
    SubroutinePrints(ts, x);
    if n.pos != x.pos {
      SubroutinesPrints(ts, n);
      ErasedJoin(ts, x.pos, x.out, n, Subroutines(ts, n));
    }
  }

  // ------------------------------------------------------------------ class

  /// What `compClass` prints: every tag but those of `subroutineBody` is
  /// closed, and the elements spell the tokens the cursor went over, plus
  /// the final '}' when it was there, which is printed without being
  /// passed.
  predicate Ends(ts: seq<Token>, p: nat, out: seq<Xml>, r: Xs)
  {
    p <= r.pos <= |ts| && out <= r.out && Balanced(Erase(New(out, r)))
    && (Leaves(New(out, r)) == Lexemes(ts, p, r.pos)
        || (E.Sym(ts, r.pos, '}') && Leaves(New(out, r)) == Lexemes(ts, p, r.pos) + [SymbolLex('}')]))
  }

  lemma ClassEndEnds(ts: seq<Token>, p: nat, out: seq<Xml>, a: Xs)
    requires PrintsErased(ts, p, out, a)
    ensures Ends(ts, p, out, ClassEnd(ts, a))
  {
    if E.Sym(ts, a.pos, '}') {
      var l := [Leaf(SymbolLex('}'))];
      var r := ClassEnd(ts, a);
      assert New(out, r) == New(out, a) + l;
      LeavesAppend(New(out, a), l);
      EraseAppend(New(out, a), l);
      assert Leaves(l) == [SymbolLex('}')] && Erase(l) == l && Balanced(l) by { assert l[1..] == []; }
      BalancedAppend(Erase(New(out, a)), l);
    }
  }

  lemma EndsJoin(ts: seq<Token>, p: nat, out: seq<Xml>, a: Xs, b: Xs)
    requires Prints(ts, p, out, a) && Ends(ts, a.pos, a.out, b)
    ensures Ends(ts, p, out, b)
  {
    NewJoin(out, a, b);
    LeavesAppend(New(out, a), New(a.out, b));
    LexemesJoin(ts, p, a.pos, b.pos);
    EraseAppend(New(out, a), New(a.out, b));
    BalancedAppend(New(out, a), Erase(New(a.out, b)));
  }

  lemma PrintsEnds(ts: seq<Token>, p: nat, out: seq<Xml>, r: Xs)
    requires PrintsErased(ts, p, out, r)
    ensures Ends(ts, p, out, r)
  {
  }

  lemma ClassNameEnds(ts: seq<Token>, x: Xs)
    requires x.pos <= |ts|
    ensures Ends(ts, x.pos, x.out, ClassName(ts, x))
  {
    if E.Ident(ts, x.pos) {
      var a := Take(ts, x);
      PrintsTake(ts, x);
      if E.Sym(ts, a.pos, '{') {
        var b := Take(ts, a);
        PrintsThenTake(ts, x.pos, x.out, a);
        var c := ClassVarDecs(ts, b);
        ClassVarDecsPrints(ts, b);
        PrintsJoin(ts, x.pos, x.out, b, c);
        var d := Subroutines(ts, c);
        SubroutinesPrints(ts, c);
        ClassEndEnds(ts, c.pos, c.out, d);
        EndsJoin(ts, x.pos, x.out, c, ClassEnd(ts, d));
      } else {
        PrintsSame(ts, x.pos, x.out, a, Fail(a));
      }
    } else {
      PrintsStill(ts, x, Fail(x));
    }
  }

  lemma EndsWrap(ts: seq<Token>, p: nat, out: seq<Xml>, t: Tag, y: Xs)
    requires t != SubroutineBodyTag && Ends(ts, p, out + [Open(t)], y)
    ensures Ends(ts, p, out, Closed(y, t))
  {
    var m := New(out + [Open(t)], y);
    var r := Closed(y, t);
    assert New(out, r) == [Open(t)] + m + [Close(t)];
    LoneTags(t);
    LeavesAppend([Open(t)] + m, [Close(t)]);
    LeavesAppend([Open(t)], m);
    EraseAppend([Open(t)] + m, [Close(t)]);
    EraseAppend([Open(t)], m);
    BalancedWrap(t, Erase(m));
  }

  /// `compClass`: every element it opens but a `subroutineBody` is closed,
  /// and what it prints spells the tokens it went over, with the final
  /// '}' printed in front of the cursor.
  lemma ClassEnds(ts: seq<Token>, x: Xs)
    requires x.pos <= |ts|
    ensures Ends(ts, x.pos, x.out, Analyzer.Class(ts, x))
  {
    if E.Kw(ts, x.pos, JackTokens.Class) {
      var y := Opened(x, ClassTag);
      PrintsTake(ts, y);
      ClassNameEnds(ts, Take(ts, y));
      EndsJoin(ts, x.pos, y.out, Take(ts, y), ClassName(ts, Take(ts, y)));
      EndsWrap(ts, x.pos, x.out, ClassTag, ClassName(ts, Take(ts, y)));
    } else {
      assert New(x.out, Analyzer.Class(ts, x)) == [];
    }
  }

  /// `handle_file`: the whole output of a file.
  lemma HandleFileEnds(lines: seq<Chunk>, junk: Buffer)
    ensures Ends(Tokenize(lines, junk).tokens, 0, [], HandleFile(lines, junk))
  {
    var lexed := Tokenize(lines, junk);
    ClassEnds(lexed.tokens, Xs(0, [], lexed.errno, []));
  }
}
